/**
 * How the spreadsheet converter decides which shared strings to convert:
 * `parse_xlsx_styles` reads the styles part for the fonts that name the
 * source font and the font of each cell format, and
 * `collect_shared_string_indices` reads a worksheet for the shared-string
 * numbers held by cells whose format uses such a font.
 */
module XlsxIndex {
  import opened Xml

  // ---------------------------------------------------------------------
  // Cell formats
  // ---------------------------------------------------------------------

  /** `val.parse::<usize>().unwrap_or(0)`. */
  function NumberOrZero(s: string): (n: nat)
    ensures n <= UsizeMax
    ensures n == 0 || ParseUsize(s) == Some(n)
  {
    match ParseUsize(s)
    case Some(n) => n
    case None => 0
  }

  /** The font of a cell format: the value of its last `fontId` attribute,
      and 0 when there is none or that value is no number. */
  function XfFontId(attrs: seq<Attr>): (n: nat)
    ensures n <= UsizeMax
  {
    if attrs == [] then 0
    else if attrs[|attrs| - 1].key == "fontId" then NumberOrZero(attrs[|attrs| - 1].value)
    else XfFontId(attrs[..|attrs| - 1])
  }

  /** A format's font is read from its last `fontId` attribute alone, and is
      0 without one. */
  lemma {:induction false} XfFontIdIsLast(attrs: seq<Attr>, k: int)
    ensures 0 <= k < |attrs| && attrs[k].key == "fontId"
      && (forall m :: k < m < |attrs| ==> attrs[m].key != "fontId")
      ==> XfFontId(attrs) == NumberOrZero(attrs[k].value)
    ensures (forall m :: 0 <= m < |attrs| ==> attrs[m].key != "fontId") ==> XfFontId(attrs) == 0
  {
    if attrs != [] {
      var n := |attrs| - 1;
      var prev := attrs[..n];
      XfFontIdIsLast(prev, k);
      assert forall m :: 0 <= m < n ==> prev[m] == attrs[m];
    }
  }

  /** The `fontId` loop of an `xf` element. */
  method XfFontIdOf(attrs: seq<Attr>) returns (fontId: nat)
    ensures fontId == XfFontId(attrs)
  {
    fontId := 0;
    for k := 0 to |attrs|
      invariant fontId == XfFontId(attrs[..k])
    {
      assert attrs[..k + 1][..k] == attrs[..k];
      if attrs[k].key == "fontId" {
        fontId := NumberOrZero(attrs[k].value);
      }
    }
    assert attrs[..|attrs|] == attrs;
  }

  /** The attribute loop of a font declaration: true iff a `val` attribute
      (under any prefix) names the source font. */
  method NamesSourceFont(attrs: seq<Attr>, font: string) returns (hit: bool)
    ensures hit == FontHit(attrs, ValAttr, font)
  {
    hit := false;
    for k := 0 to |attrs|
      invariant hit <==> exists i :: 0 <= i < k && NamesFont(attrs[i], ValAttr, font)
    {
      var a := attrs[k];
      if Watched(ValAttr, a.key) && a.value == font {
        hit := true;
      }
    }
  }

  // ---------------------------------------------------------------------
  // parse_xlsx_styles
  // ---------------------------------------------------------------------

  /** The loop variables of `parse_xlsx_styles`. */
  datatype StyleScan = StyleScan(inFonts: bool, inCellXfs: bool, currentFontId: nat,
                                 sourceFontIds: set<nat>, xfFontIds: seq<nat>)

  const NoStyles: StyleScan := StyleScan(false, false, 0, {}, [])

  /** True iff `name` declares a font's name (`name` or `rFont`, under any
      prefix). */
  predicate IsFontName(name: string)
  {
    TagMatches(name, "name") || TagMatches(name, "rFont")
  }

  /** A start or empty tag read in `s`: a font name naming the source font
      records the current font, a cell format records its font. */
  function Declare(font: string, s: StyleScan, name: string, attrs: seq<Attr>): StyleScan
  {
    if s.inFonts && IsFontName(name) then
      if FontHit(attrs, ValAttr, font) then s.(sourceFontIds := s.sourceFontIds + {s.currentFontId}) else s
    else if s.inCellXfs && name == "xf" then s.(xfFontIds := s.xfFontIds + [XfFontId(attrs)])
    else s
  }

  /** One turn of the loop.  Only start tags enter the font and cell-format
      lists; only the end of a `font` in the font list moves to the next
      font. */
  function StyleStep(font: string, s: StyleScan, e: Event): StyleScan
  {
    match e
    case Start(name, attrs) =>
      var s1 := if name == "fonts" then s.(inFonts := true)
                else if name == "cellXfs" then s.(inCellXfs := true) else s;
      Declare(font, s1, name, attrs)
    case Empty(name, attrs) => Declare(font, s, name, attrs)
    case End(name) =>
      if name == "font" && s.inFonts then s.(currentFontId := s.currentFontId + 1)
      else if name == "fonts" then s.(inFonts := false)
      else if name == "cellXfs" then s.(inCellXfs := false)
      else s
    case Text(_) => s
    case Markup(_) => s
  }

  /** The loop variables after reading `evs`. */
  function StylesAfter(font: string, evs: seq<Event>): (r: StyleScan)
    ensures forall n :: n in r.sourceFontIds ==> n <= r.currentFontId
    ensures r.currentFontId <= |evs| && |r.xfFontIds| <= |evs|
  {
    if evs == [] then NoStyles
    else StyleStep(font, StylesAfter(font, evs[..|evs| - 1]), evs[|evs| - 1])
  }

  /** `parse_xlsx_styles`: the fonts naming the source font, and the font of
      each cell format in order. */
  method ParseXlsxStyles(input: seq<Read>, font: string) returns (sourceFontIds: set<nat>, xfFontIds: seq<nat>)
    ensures sourceFontIds == StylesAfter(font, LiveEvents(input)).sourceFontIds
    ensures xfFontIds == StylesAfter(font, LiveEvents(input)).xfFontIds
    ensures |xfFontIds| == |Xfs(font, LiveEvents(input))|
    ensures forall m :: 0 <= m < |xfFontIds| ==>
      xfFontIds[m] == XfFontId(LiveEvents(input)[Xfs(font, LiveEvents(input))[m]].attrs)
  {
    var scan := NoStyles;
    ghost var evs := LiveEvents(input);
    var i := 0;
    while i < |input|
      invariant i <= |evs|
      invariant scan == StylesAfter(font, evs[..i])
    {
      if !input[i].Ok? {
        assert i == |evs|;
        break;
      }
      assert input[i] == Ok(evs[i]);
      OneMoreStyleEvent(font, evs, i);
      scan := StyleEvent(font, scan, input[i].ev);
      i := i + 1;
    }
    assert evs[..|evs|] == evs;
    sourceFontIds, xfFontIds := scan.sourceFontIds, scan.xfFontIds;
    XfFontIdsIff(font, evs);
  }

  /** Reading one more event of the styles part. */
  lemma OneMoreStyleEvent(font: string, evs: seq<Event>, i: nat)
    requires i < |evs|
    ensures StylesAfter(font, evs[..i + 1]) == StyleStep(font, StylesAfter(font, evs[..i]), evs[i])
  {
    assert evs[..i + 1][..i] == evs[..i];
  }

  /** The body of the styles loop for one event. */
  method StyleEvent(font: string, s: StyleScan, e: Event) returns (s': StyleScan)
    ensures s' == StyleStep(font, s, e)
  {
    s' := s;
    match e {
      case Start(name, attrs) =>
        if name == "fonts" {
          s' := s'.(inFonts := true);
        } else if name == "cellXfs" {
          s' := s'.(inCellXfs := true);
        }
        s' := StyleElement(font, s', name, attrs);
      case Empty(name, attrs) =>
        s' := StyleElement(font, s', name, attrs);
      case End(name) =>
        if name == "font" && s.inFonts {
          s' := s'.(currentFontId := s.currentFontId + 1);
        } else if name == "fonts" {
          s' := s'.(inFonts := false);
        } else if name == "cellXfs" {
          s' := s'.(inCellXfs := false);
        }
      case Text(_) =>
      case Markup(_) =>
    }
  }

  /** The branch shared by start and empty tags. */
  method StyleElement(font: string, s: StyleScan, name: string, attrs: seq<Attr>) returns (s': StyleScan)
    ensures s' == Declare(font, s, name, attrs)
  {
    s' := s;
    if s.inFonts && IsFontName(name) {
      var hit := NamesSourceFont(attrs, font);
      if hit {
        s' := s'.(sourceFontIds := s'.sourceFontIds + {s.currentFontId});
      }
    } else if s.inCellXfs && name == "xf" {
      var fontId := XfFontIdOf(attrs);
      s' := s'.(xfFontIds := s'.xfFontIds + [fontId]);
    }
  }

  /** True iff `evs[j]` is a font name inside the font list that names the
      source font while font number `n` is being read. */
  predicate DeclaresAt(font: string, evs: seq<Event>, j: int, n: nat)
  {
    0 <= j < |evs| && (evs[j].Start? || evs[j].Empty?) && IsFontName(evs[j].name)
    && StylesAfter(font, evs[..j]).inFonts && FontHit(evs[j].attrs, ValAttr, font)
    && StylesAfter(font, evs[..j]).currentFontId == n
  }

  /** The names `fonts` and `cellXfs` are no font names. */
  lemma ListTagsAreNoFontNames()
    ensures !IsFontName("fonts") && !IsFontName("cellXfs")
  {
    assert "fonts"[1..] != "name";
    assert "fonts"[0..] != "rFont";
    assert "cellXfs"[3..] != "name";
    assert "cellXfs"[2..] != "rFont";
  }

  /** One event records font `n` iff it is a font name inside the font list
      naming the source font while font `n` is read. */
  lemma StepDeclares(font: string, s: StyleScan, e: Event, n: nat)
    ensures n in StyleStep(font, s, e).sourceFontIds <==>
      n in s.sourceFontIds || ((e.Start? || e.Empty?) && IsFontName(e.name) && s.inFonts
                               && FontHit(e.attrs, ValAttr, font) && s.currentFontId == n)
  {
    ListTagsAreNoFontNames();
  }

  /** A font is recorded exactly when one of its names inside the font list
      names the source font. */
  lemma {:induction false} SourceFontIdsIff(font: string, evs: seq<Event>, n: nat)
    ensures n in StylesAfter(font, evs).sourceFontIds <==> exists j :: DeclaresAt(font, evs, j, n)
  {
    if evs != [] {
      var k := |evs| - 1;
      var prev := evs[..k];
      SourceFontIdsIff(font, prev, n);
      StepDeclares(font, StylesAfter(font, prev), evs[k], n);
      assert evs[..k] == prev;
      forall j | 0 <= j < k
        ensures DeclaresAt(font, evs, j, n) == DeclaresAt(font, prev, j, n)
      {
        assert evs[..j] == prev[..j];
      }
      if DeclaresAt(font, evs, k, n) {
        assert n in StylesAfter(font, evs).sourceFontIds;
      }
      if n in StylesAfter(font, evs).sourceFontIds && n !in StylesAfter(font, prev).sourceFontIds {
        assert DeclaresAt(font, evs, k, n);
      }
    }
  }

  /** One event appends at most the font of one cell format. */
  lemma StepAppends(font: string, s: StyleScan, e: Event)
    ensures s.xfFontIds <= StyleStep(font, s, e).xfFontIds
    ensures |StyleStep(font, s, e).xfFontIds| <= |s.xfFontIds| + 1
  {
  }

  /** The cell-format list only grows as the document is read. */
  lemma {:induction false} XfFontIdsGrow(font: string, evs: seq<Event>, k: nat)
    requires k <= |evs|
    ensures StylesAfter(font, evs[..k]).xfFontIds <= StylesAfter(font, evs).xfFontIds
  {
    if k < |evs| {
      var n := |evs| - 1;
      XfFontIdsGrow(font, evs[..n], k);
      assert evs[..n][..k] == evs[..k];
      StepAppends(font, StylesAfter(font, evs[..n]), evs[n]);
    } else {
      assert evs[..k] == evs;
    }
  }

  /** True iff `evs[j]` is a cell format read inside the cell-format list. */
  predicate XfAt(font: string, evs: seq<Event>, j: int)
  {
    0 <= j < |evs| && (evs[j].Start? || evs[j].Empty?) && evs[j].name == "xf"
    && StylesAfter(font, evs[..j]).inCellXfs
  }

  /** The positions of the cell formats read inside the cell-format list, in
      document order. */
  function Xfs(font: string, evs: seq<Event>): (r: seq<nat>)
    ensures forall m :: 0 <= m < |r| ==> r[m] < |evs| && (evs[r[m]].Start? || evs[r[m]].Empty?)
  {
    if evs == [] then []
    else
      var n := |evs| - 1;
      Xfs(font, evs[..n]) + if XfAt(font, evs, n) then [n] else []
  }

  /** One event appends a cell format's font exactly when it is an `xf` tag
      inside the cell-format list. */
  lemma StepXf(font: string, s: StyleScan, e: Event)
    ensures StyleStep(font, s, e).xfFontIds == s.xfFontIds +
      if (e.Start? || e.Empty?) && e.name == "xf" && s.inCellXfs then [XfFontId(e.attrs)] else []
  {
    assert !IsFontName("xf") by {
      assert !EndsWith("xf", "name") && !EndsWith("xf", "rFont");
    }
  }

  /** `Xfs` lists exactly the cell formats inside the cell-format list, each
      once and in increasing order. */
  lemma {:induction false} XfsPositions(font: string, evs: seq<Event>)
    ensures forall m :: 0 <= m < |Xfs(font, evs)| ==> XfAt(font, evs, Xfs(font, evs)[m])
    ensures forall j :: XfAt(font, evs, j) ==> j in Xfs(font, evs)
    ensures forall m1, m2 :: 0 <= m1 < m2 < |Xfs(font, evs)| ==> Xfs(font, evs)[m1] < Xfs(font, evs)[m2]
  {
    if evs != [] {
      var k := |evs| - 1;
      var prev := evs[..k];
      XfsPositions(font, prev);
      forall j | 0 <= j < k ensures XfAt(font, evs, j) == XfAt(font, prev, j) {
        assert evs[..j] == prev[..j];
      }
    }
  }

  /** The cell-format list holds one font for every `xf` inside `cellXfs`,
      in document order, each read from that `xf`'s attributes. */
  lemma {:induction false} XfFontIdsIff(font: string, evs: seq<Event>)
    ensures |StylesAfter(font, evs).xfFontIds| == |Xfs(font, evs)|
    ensures forall m :: 0 <= m < |Xfs(font, evs)| ==>
      StylesAfter(font, evs).xfFontIds[m] == XfFontId(evs[Xfs(font, evs)[m]].attrs)
  {
    if evs != [] {
      var k := |evs| - 1;
      var prev := evs[..k];
      XfFontIdsIff(font, prev);
      StepXf(font, StylesAfter(font, prev), evs[k]);
      assert evs[..k] == prev;
      var xs := Xfs(font, evs);
      assert Xfs(font, prev) == xs[..|Xfs(font, prev)|];
      forall m | 0 <= m < |Xfs(font, prev)|
        ensures StylesAfter(font, evs).xfFontIds[m] == XfFontId(evs[xs[m]].attrs)
      {
        assert prev[xs[m]] == evs[xs[m]];
      }
    }
  }

  /** Every cell format's font fits in a `usize`. */
  lemma {:induction false} XfFontIdsBounded(font: string, evs: seq<Event>)
    ensures forall m :: 0 <= m < |StylesAfter(font, evs).xfFontIds| ==> StylesAfter(font, evs).xfFontIds[m] <= UsizeMax
  {
    if evs != [] {
      XfFontIdsBounded(font, evs[..|evs| - 1]);
    }
  }

  /** A self-closing `<font/>` does not move to the next font, while the end
      of a `font` inside the font list does. */
  lemma FontNumbering(font: string, s: StyleScan, attrs: seq<Attr>)
    ensures StyleStep(font, s, Empty("font", attrs)).currentFontId == s.currentFontId
    ensures StyleStep(font, s, End("font")).currentFontId == if s.inFonts then s.currentFontId + 1 else s.currentFontId
  {
    assert "font"[0..] != "rFont";
    assert !IsFontName("font");
  }

  // ---------------------------------------------------------------------
  // collect_shared_string_indices
  // ---------------------------------------------------------------------

  /** `current_cell_style` and `current_cell_type`. */
  datatype Cell = Cell(style: Option<nat>, kind: Option<string>)

  const NoCell: Cell := Cell(None, None)

  /** The cell a `<c>` start tag opens: the style of its last `s` attribute
      (none when that is no number) and the type of its last `t`. */
  function CellOpened(attrs: seq<Attr>): Cell
  {
    if attrs == [] then NoCell
    else
      var c := CellOpened(attrs[..|attrs| - 1]);
      var a := attrs[|attrs| - 1];
      if a.key == "s" then c.(style := ParseUsize(a.value))
      else if a.key == "t" then c.(kind := Some(a.value))
      else c
  }

  /** The attribute loop of a `<c>` start tag. */
  method CellAttributes(attrs: seq<Attr>) returns (style: Option<nat>, kind: Option<string>)
    ensures Cell(style, kind) == CellOpened(attrs)
  {
    style, kind := None, None;
    for k := 0 to |attrs|
      invariant Cell(style, kind) == CellOpened(attrs[..k])
    {
      assert attrs[..k + 1][..k] == attrs[..k];
      var a := attrs[k];
      if a.key == "s" {
        style := ParseUsize(a.value);
      } else if a.key == "t" {
        kind := Some(a.value);
      }
    }
    assert attrs[..|attrs|] == attrs;
  }

  /** A cell without an `s` attribute has no style. */
  lemma {:induction false} NoStyleAttr(attrs: seq<Attr>)
    requires forall m :: 0 <= m < |attrs| ==> attrs[m].key != "s"
    ensures CellOpened(attrs).style == None
  {
    if attrs != [] {
      NoStyleAttr(attrs[..|attrs| - 1]);
    }
  }

  /** The cell after one event: a `<c>` start tag opens one, its end tag
      closes it, and nothing else (a self-closing `<c/>` included) touches
      it. */
  function CellStep(c: Cell, e: Event): Cell
  {
    match e
    case Start(name, attrs) => if name == "c" then CellOpened(attrs) else c
    case End(name) => if name == "c" then NoCell else c
    case Empty(_, _) => c
    case Text(_) => c
    case Markup(_) => c
  }

  function CellAfter(evs: seq<Event>): Cell
  {
    if evs == [] then NoCell else CellStep(CellAfter(evs[..|evs| - 1]), evs[|evs| - 1])
  }

  /** True iff the cell holds a shared string and its format's font is one
      of the source fonts. */
  predicate Selects(ids: set<nat>, xfs: seq<nat>, c: Cell)
  {
    c.kind == Some("s") && c.style.Some? && c.style.value < |xfs| && xfs[c.style.value] in ids
  }

  /** The shared-string number a text contributes, if any. */
  function Contribution(ids: set<nat>, xfs: seq<nat>, c: Cell, e: Event): set<nat>
  {
    if e.Text? && Selects(ids, xfs, c) then
      match ParseUsize(e.text)
      case Some(n) => {n}
      case None => {}
    else {}
  }

  /** The set after reading `evs` into `out`. */
  function Collected(ids: set<nat>, xfs: seq<nat>, evs: seq<Event>, out: set<nat>): (r: set<nat>)
    ensures out <= r
    ensures ids == {} ==> r == out
  {
    if evs == [] then out
    else
      var prev := evs[..|evs| - 1];
      Collected(ids, xfs, prev, out) + Contribution(ids, xfs, CellAfter(prev), evs[|evs| - 1])
  }

  /** `collect_shared_string_indices`: `out` with the numbers found in the
      worksheet added. */
  method CollectSharedStringIndices(input: seq<Read>, ids: set<nat>, xfs: seq<nat>, out: set<nat>)
    returns (result: set<nat>)
    ensures result == Collected(ids, xfs, LiveEvents(input), out)
  {
    result := out;
    var cell := NoCell;
    ghost var evs := LiveEvents(input);
    var i := 0;
    while i < |input|
      invariant i <= |evs|
      invariant cell == CellAfter(evs[..i])
      invariant result == Collected(ids, xfs, evs[..i], out)
    {
      if !input[i].Ok? {
        assert i == |evs|;
        break;
      }
      assert input[i] == Ok(evs[i]);
      OneMoreCellEvent(ids, xfs, evs, i, out);
      cell, result := CellEvent(ids, xfs, cell, result, input[i].ev);
      i := i + 1;
    }
    assert evs[..|evs|] == evs;
  }

  /** Reading one more event of a worksheet. */
  lemma OneMoreCellEvent(ids: set<nat>, xfs: seq<nat>, evs: seq<Event>, i: nat, out: set<nat>)
    requires i < |evs|
    ensures CellAfter(evs[..i + 1]) == CellStep(CellAfter(evs[..i]), evs[i])
    ensures Collected(ids, xfs, evs[..i + 1], out)
         == Collected(ids, xfs, evs[..i], out) + Contribution(ids, xfs, CellAfter(evs[..i]), evs[i])
  {
    assert evs[..i + 1][..i] == evs[..i];
  }

  /** The body of the worksheet loop for one event. */
  method CellEvent(ids: set<nat>, xfs: seq<nat>, c: Cell, result: set<nat>, e: Event)
    returns (c': Cell, result': set<nat>)
    ensures c' == CellStep(c, e)
    ensures result' == result + Contribution(ids, xfs, c, e)
  {
    c', result' := c, result;
    match e {
      case Start(name, attrs) =>
        if name == "c" {
          var style, kind := CellAttributes(attrs);
          c' := Cell(style, kind);
        }
      case Text(t) =>
        if c.kind == Some("s") && c.style.Some? && c.style.value < |xfs| && xfs[c.style.value] in ids {
          var n := ParseUsize(t);
          if n.Some? {
            result' := result + {n.value};
          }
        }
      case End(name) =>
        if name == "c" {
          c' := NoCell;
        }
      case Empty(_, _) =>
      case Markup(_) =>
    }
  }

  /** True iff `evs[j]` opens a cell and no cell opens or closes after it. */
  predicate OpenedAt(evs: seq<Event>, j: int)
  {
    0 <= j < |evs| && evs[j].Start? && evs[j].name == "c"
    && forall k :: j < k < |evs| ==> !((evs[k].Start? || evs[k].End?) && evs[k].name == "c")
  }

  /** The current cell is the one the last `<c>` start tag opened, if no
      `</c>` came after it, and no cell otherwise. */
  lemma {:induction false} CellIsLastOpened(evs: seq<Event>)
    ensures forall j :: OpenedAt(evs, j) ==> CellAfter(evs) == CellOpened(evs[j].attrs)
    ensures (forall j :: !OpenedAt(evs, j)) ==> CellAfter(evs) == NoCell
  {
    if evs != [] {
      var n := |evs| - 1;
      var prev := evs[..n];
      CellIsLastOpened(prev);
      assert forall k :: 0 <= k < n ==> prev[k] == evs[k];
      var e := evs[n];
      if !((e.Start? || e.End?) && e.name == "c") {
        forall j | OpenedAt(evs, j) ensures OpenedAt(prev, j) {
        }
        if forall j :: !OpenedAt(evs, j) {
          forall j | OpenedAt(prev, j) ensures false {
            assert OpenedAt(evs, j);
          }
        }
      } else if e.Start? {
        assert OpenedAt(evs, n);
      }
    }
  }

  /** True iff `evs[j]` is the text of a selected cell and reads as `n`. */
  predicate FoundAt(ids: set<nat>, xfs: seq<nat>, evs: seq<Event>, j: int, n: nat)
  {
    0 <= j < |evs| && evs[j].Text? && Selects(ids, xfs, CellAfter(evs[..j])) && ParseUsize(evs[j].text) == Some(n)
  }

  /** One event contributes `n` iff it is a text of a selected cell that
      reads as `n`. */
  lemma ContributionIff(ids: set<nat>, xfs: seq<nat>, c: Cell, e: Event, n: nat)
    ensures n in Contribution(ids, xfs, c, e) <==> e.Text? && Selects(ids, xfs, c) && ParseUsize(e.text) == Some(n)
  {
  }

  /**
   * A number is added exactly when it is the text of a cell that holds a
   * shared string and whose format's font is a source font; nothing is
   * ever removed.
   */
  lemma {:induction false} CollectedIff(ids: set<nat>, xfs: seq<nat>, evs: seq<Event>, out: set<nat>, n: nat)
    ensures out <= Collected(ids, xfs, evs, out)
    ensures n in Collected(ids, xfs, evs, out) <==> n in out || exists j :: FoundAt(ids, xfs, evs, j, n)
  {
    if evs != [] {
      var k := |evs| - 1;
      var prev := evs[..k];
      CollectedIff(ids, xfs, prev, out, n);
      ContributionIff(ids, xfs, CellAfter(prev), evs[k], n);
      assert evs[..k] == prev;
      forall j | 0 <= j < k ensures FoundAt(ids, xfs, evs, j, n) == FoundAt(ids, xfs, prev, j, n) {
        assert evs[..j] == prev[..j];
      }
      if n in Collected(ids, xfs, evs, out) && n !in Collected(ids, xfs, prev, out) {
        assert FoundAt(ids, xfs, evs, k, n);
      }
    }
  }

  /** A cell without a style attribute never contributes a number. */
  lemma UnstyledCellContributesNothing(ids: set<nat>, xfs: seq<nat>, attrs: seq<Attr>, e: Event)
    requires forall m :: 0 <= m < |attrs| ==> attrs[m].key != "s"
    ensures Contribution(ids, xfs, CellOpened(attrs), e) == {}
  {
    NoStyleAttr(attrs);
  }
}
