/**
 * The four font-scoped XML rewriters of the desktop converter:
 * `process_docx_xml`, `process_pptx_slide`, `process_shared_strings` and
 * `process_xlsx_styles`.  Each reads the document event by event, keeps a
 * few flags about the run (and shared string) it is in, rewrites the font
 * attributes of font elements and transcodes the text of runs set in the
 * source font, writing one event for each event read until the end of the
 * document or the first parse error.
 *
 * The four differ only in which element names open a run, which elements
 * carry the font, which attributes name it and whether shared-string items
 * are tracked; `Dialect` says which.
 */
module Rewriters {
  import opened Xml
  import Transcoder

  /** Which rewriter runs; a shared-strings rewriter carries the numbers of
      the items whose whole text is to be converted. */
  datatype Dialect = Docx | Pptx | SharedStrings(indices: set<nat>) | Styles

  /** The loop variables `in_run`, `run_has_font`, `in_si`, `si_index` and
      `convert_si`. */
  datatype Flags = Flags(inRun: bool, runHasFont: bool, inSi: bool, siIndex: nat, convertSi: bool)

  const Initial: Flags := Flags(false, false, false, 0, false)

  /** The element that opens and closes a run: `w:r` in Word documents, `r`
      under any prefix in slides, plain `r` in shared strings; the styles
      rewriter has none. */
  predicate IsRunTag(d: Dialect, name: string)
  {
    match d
    case Docx => name == "w:r"
    case Pptx => TagMatches(name, "r")
    case SharedStrings(_) => name == "r"
    case Styles => false
  }

  /** The elements whose attributes name a font: `w:rFonts`; `rPr` and
      `latin` under any prefix; `rFont`; `name` and `rFont` under any
      prefix. */
  predicate IsFontTag(d: Dialect, name: string)
  {
    match d
    case Docx => name == "w:rFonts"
    case Pptx => TagMatches(name, "rPr") || TagMatches(name, "latin")
    case SharedStrings(_) => name == "rFont"
    case Styles => TagMatches(name, "name") || TagMatches(name, "rFont")
  }

  function WatchOf(d: Dialect): Watch
  {
    match d
    case Docx => WordFont
    case Pptx => Typeface
    case SharedStrings(_) => ValAttr
    case Styles => ValAttr
  }

  /** A font element is rewritten inside a run, and anywhere in styles. */
  predicate RewritesAt(d: Dialect, f: Flags, name: string)
  {
    IsFontTag(d, name) && (d.Styles? || f.inRun)
  }

  /** Text is transcoded inside a run that named the source font, and in
      shared strings also anywhere inside a selected item. */
  predicate Converts(d: Dialect, f: Flags)
  {
    !d.Styles? && ((f.inRun && f.runHasFont) || (d.SharedStrings? && f.inSi && f.convertSi))
  }

  function OpenSi(d: Dialect, f: Flags, name: string): Flags
  {
    if d.SharedStrings? && name == "si" then f.(inSi := true, convertSi := f.siIndex in d.indices, siIndex := f.siIndex + 1)
    else f
  }

  function OpenRun(d: Dialect, f: Flags, name: string): Flags
  {
    if IsRunTag(d, name) then f.(inRun := true, runHasFont := false) else f
  }

  function NoteHit(d: Dialect, f: Flags, hit: bool): Flags
  {
    if hit && !d.Styles? then f.(runHasFont := true) else f
  }

  function Close(d: Dialect, f: Flags, name: string): Flags
  {
    var f1 := if IsRunTag(d, name) then f.(inRun := false, runHasFont := false) else f;
    if d.SharedStrings? && name == "si" then f1.(inSi := false, convertSi := false) else f1
  }

  /** The flags after one turn of the loop. */
  function Next(d: Dialect, font: string, f: Flags, e: Event): Flags
  {
    match e
    case Start(name, attrs) =>
      var f1 := OpenRun(d, OpenSi(d, f, name), name);
      if RewritesAt(d, f1, name) then NoteHit(d, f1, FontHit(attrs, WatchOf(d), font)) else f1
    case Empty(name, attrs) =>
      if RewritesAt(d, f, name) then NoteHit(d, f, FontHit(attrs, WatchOf(d), font)) else f
    case Text(_) => f
    case End(name) => Close(d, f, name)
    case Markup(_) => f
  }

  /** The event one turn of the loop writes for `e` read in the flags `f`. */
  function Written(d: Dialect, font: string, convert: string -> string, f: Flags, e: Event): Event
  {
    match e
    case Start(name, attrs) =>
      if RewritesAt(d, OpenRun(d, OpenSi(d, f, name), name), name)
      then Start(name, RewrittenAttrs(attrs, WatchOf(d), font)) else e
    case Empty(name, attrs) =>
      if RewritesAt(d, f, name) then Empty(name, RewrittenAttrs(attrs, WatchOf(d), font)) else e
    case Text(t) => if Converts(d, f) then Text(convert(t)) else e
    case End(_) => e
    case Markup(_) => e
  }

  /** The flags after reading `evs`. */
  function After(d: Dialect, font: string, evs: seq<Event>): Flags
  {
    if evs == [] then Initial
    else Next(d, font, After(d, font, evs[..|evs| - 1]), evs[|evs| - 1])
  }

  /** The events written for `evs`, one for each. */
  function Outputs(d: Dialect, font: string, convert: string -> string, evs: seq<Event>): (r: seq<Event>)
    ensures |r| == |evs|
  {
    if evs == [] then []
    else
      var prev := evs[..|evs| - 1];
      Outputs(d, font, convert, prev) + [Written(d, font, convert, After(d, font, prev), evs[|evs| - 1])]
  }

  /** What a rewriter writes for the reader results `input`. */
  function Rewritten(d: Dialect, font: string, convert: string -> string, input: seq<Read>): (r: seq<Event>)
    ensures |r| == |LiveEvents(input)| <= |input|
  {
    Outputs(d, font, convert, LiveEvents(input))
  }

  // ---------------------------------------------------------------------
  // The loop
  // ---------------------------------------------------------------------

  /** The event loop shared by the four rewriters: read until the end of the
      document or the first error, writing what each event becomes. */
  method Process(d: Dialect, font: string, convert: string -> string, input: seq<Read>) returns (out: seq<Event>)
    ensures out == Rewritten(d, font, convert, input)
  {
    var flags := Initial;
    out := [];
    ghost var evs := LiveEvents(input);
    var i := 0;
    while i < |input|
      invariant i <= |evs|
      invariant flags == After(d, font, evs[..i])
      invariant out == Outputs(d, font, convert, evs[..i])
    {
      if !input[i].Ok? {
        assert i == |evs|;
        break;
      }
      assert input[i] == Ok(evs[i]);
      var written;
      flags, written := HandleEvent(d, font, convert, flags, input[i].ev);
      OneMoreEvent(d, font, convert, evs, i);
      out := out + [written];
      i := i + 1;
    }
    assert evs[..|evs|] == evs;
  }

  /** Reading one more event extends the flags and the output by one step. */
  lemma OneMoreEvent(d: Dialect, font: string, convert: string -> string, evs: seq<Event>, i: nat)
    requires i < |evs|
    ensures After(d, font, evs[..i + 1]) == Next(d, font, After(d, font, evs[..i]), evs[i])
    ensures Outputs(d, font, convert, evs[..i + 1]) == Outputs(d, font, convert, evs[..i]) + [Written(d, font, convert, After(d, font, evs[..i]), evs[i])]
  {
    assert evs[..i + 1][..i] == evs[..i];
  }

  /** The body of the loop for one event: the flag updates and the event
      written, branch by branch as the rewriters do them. */
  method HandleEvent(d: Dialect, font: string, convert: string -> string, f: Flags, e: Event) returns (next: Flags, written: Event)
    ensures next == Next(d, font, f, e)
    ensures written == Written(d, font, convert, f, e)
  {
    match e {
      case Start(name, attrs) =>
        next := f;
        if d.SharedStrings? && name == "si" {
          next := next.(inSi := true, convertSi := next.siIndex in d.indices, siIndex := next.siIndex + 1);
        }
        if IsRunTag(d, name) {
          next := next.(inRun := true, runHasFont := false);
        }
        var attrsOut;
        next, attrsOut := FontElement(d, font, next, name, attrs);
        written := Start(name, attrsOut);
      case Empty(name, attrs) =>
        var attrsOut;
        next, attrsOut := FontElement(d, font, f, name, attrs);
        written := Empty(name, attrsOut);
      case Text(t) =>
        next := f;
        if !d.Styles? && ((f.inRun && f.runHasFont) || (d.SharedStrings? && f.inSi && f.convertSi)) {
          written := Text(convert(t));
        } else {
          written := e;
        }
      case End(name) =>
        next := f;
        if IsRunTag(d, name) {
          next := next.(inRun := false, runHasFont := false);
        }
        if d.SharedStrings? && name == "si" {
          next := next.(inSi := false, convertSi := false);
        }
        written := e;
      case Markup(_) =>
        next, written := f, e;
    }
  }

  /** The font-element branch of a start or empty tag: where the dialect
      rewrites fonts the attributes are rewritten and a hit marks the run;
      elsewhere the element is written as read. */
  method FontElement(d: Dialect, font: string, f: Flags, name: string, attrs: seq<Attr>)
    returns (next: Flags, attrsOut: seq<Attr>)
    ensures next == if RewritesAt(d, f, name) then NoteHit(d, f, FontHit(attrs, WatchOf(d), font)) else f
    ensures attrsOut == if RewritesAt(d, f, name) then RewrittenAttrs(attrs, WatchOf(d), font) else attrs
  {
    next, attrsOut := f, attrs;
    if IsFontTag(d, name) && (d.Styles? || f.inRun) {
      var hit;
      attrsOut, hit := RewriteFontAttrs(attrs, WatchOf(d), font);
      RewriteFontAttrsSpec(attrs, WatchOf(d), font, attrsOut, hit);
      if hit && !d.Styles? {
        next := next.(runHasFont := true);
      }
    }
  }

  /** `process_docx_xml`. */
  method ProcessDocxXml(input: seq<Read>, font: string) returns (out: seq<Event>)
    ensures out == Rewritten(Docx, font, Transcoder.Transcoded, input)
  {
    out := Process(Docx, font, Transcoder.Transcoded, input);
  }

  /** `process_pptx_slide`. */
  method ProcessPptxSlide(input: seq<Read>, font: string) returns (out: seq<Event>)
    ensures out == Rewritten(Pptx, font, Transcoder.Transcoded, input)
  {
    out := Process(Pptx, font, Transcoder.Transcoded, input);
  }

  /** `process_shared_strings`. */
  method ProcessSharedStrings(input: seq<Read>, font: string, indices: set<nat>) returns (out: seq<Event>)
    ensures out == Rewritten(SharedStrings(indices), font, Transcoder.Transcoded, input)
  {
    out := Process(SharedStrings(indices), font, Transcoder.Transcoded, input);
  }

  /** `process_xlsx_styles`. */
  method ProcessXlsxStyles(input: seq<Read>, font: string) returns (out: seq<Event>)
    ensures out == Rewritten(Styles, font, Transcoder.Transcoded, input)
  {
    out := Process(Styles, font, Transcoder.Transcoded, input);
  }
}
