/**
 * What the four rewriters guarantee about the document they write: one
 * event for each event read, nothing but font attributes and run text ever
 * changed, text converted exactly inside runs (or shared-string items)
 * marked by the source font, and nothing read past the first error.
 */
module RewriterLaws {
  import opened Xml
  import opened Rewriters
  import Transcoder

  /** Each event written is the one the loop writes for the event read, in
      the flags left by the events before it. */
  lemma {:induction false} OutputsAt(d: Dialect, font: string, convert: string -> string, evs: seq<Event>)
    ensures forall i :: 0 <= i < |evs| ==>
      Outputs(d, font, convert, evs)[i] == Written(d, font, convert, After(d, font, evs[..i]), evs[i])
  {
    if evs != [] {
      var prev := evs[..|evs| - 1];
      OutputsAt(d, font, convert, prev);
      forall i | 0 <= i < |evs|
        ensures Outputs(d, font, convert, evs)[i] == Written(d, font, convert, After(d, font, evs[..i]), evs[i])
      {
        if i < |prev| {
          assert prev[..i] == evs[..i];
        } else {
          assert evs[..i] == prev;
        }
      }
    }
  }

  /** Writing is streaming: the events written for a prefix of the document
      are the first events written for the whole. */
  lemma {:induction false} OutputsPrefix(d: Dialect, font: string, convert: string -> string, evs: seq<Event>, k: nat)
    requires k <= |evs|
    ensures Outputs(d, font, convert, evs[..k]) == Outputs(d, font, convert, evs)[..k]
    decreases |evs|
  {
    if k < |evs| {
      var prev := evs[..|evs| - 1];
      OutputsPrefix(d, font, convert, prev, k);
      assert prev[..k] == evs[..k];
      assert Outputs(d, font, convert, evs)[..k] == Outputs(d, font, convert, prev)[..k];
    } else {
      assert evs[..k] == evs;
    }
  }

  /**
   * Each event written, by kind of event read: a font element is written
   * with its attributes rewritten when it sits where its dialect rewrites
   * fonts (after any run or item it opens), a text is written converted
   * exactly when the flags before it say so, and every other event is
   * copied unchanged.
   */
  lemma EventWritten(d: Dialect, font: string, convert: string -> string, evs: seq<Event>, i: nat)
    requires i < |evs|
    ensures evs[i].Start? ==> (Outputs(d, font, convert, evs)[i] ==
      if RewritesAt(d, OpenRun(d, OpenSi(d, After(d, font, evs[..i]), evs[i].name), evs[i].name), evs[i].name)
      then Start(evs[i].name, RewrittenAttrs(evs[i].attrs, WatchOf(d), font)) else evs[i])
    ensures evs[i].Empty? ==> (Outputs(d, font, convert, evs)[i] ==
      if RewritesAt(d, After(d, font, evs[..i]), evs[i].name)
      then Empty(evs[i].name, RewrittenAttrs(evs[i].attrs, WatchOf(d), font)) else evs[i])
    ensures evs[i].Text? ==> (Outputs(d, font, convert, evs)[i] ==
      if Converts(d, After(d, font, evs[..i])) then Text(convert(evs[i].text)) else evs[i])
    ensures evs[i].End? || evs[i].Markup? ==> Outputs(d, font, convert, evs)[i] == evs[i]
  {
    OutputsAt(d, font, convert, evs);
  }

  /** The events written have the kinds, names and attribute keys of the
      events read: only attribute values and texts ever differ. */
  lemma OutputsKeepShape(d: Dialect, font: string, convert: string -> string, evs: seq<Event>, i: nat)
    requires i < |evs|
    ensures Outputs(d, font, convert, evs)[i].Start? == evs[i].Start?
    ensures Outputs(d, font, convert, evs)[i].Empty? == evs[i].Empty?
    ensures Outputs(d, font, convert, evs)[i].Text? == evs[i].Text?
    ensures evs[i].Start? || evs[i].Empty? ==>
      var out := Outputs(d, font, convert, evs)[i];
      out.name == evs[i].name && |out.attrs| == |evs[i].attrs|
      && forall k :: 0 <= k < |out.attrs| ==> out.attrs[k].key == evs[i].attrs[k].key
    ensures evs[i].End? || evs[i].Markup? ==> Outputs(d, font, convert, evs)[i] == evs[i]
  {
    EventWritten(d, font, convert, evs, i);
  }

  // ---------------------------------------------------------------------
  // The flags
  // ---------------------------------------------------------------------

  /** A run can only be marked by the source font while it is open, and a
      shared-string item only selected while it is open. */
  lemma {:induction false} FlagsConsistent(d: Dialect, font: string, evs: seq<Event>)
    ensures After(d, font, evs).runHasFont ==> After(d, font, evs).inRun
    ensures After(d, font, evs).convertSi ==> After(d, font, evs).inSi
  {
    if evs != [] {
      FlagsConsistent(d, font, evs[..|evs| - 1]);
    }
  }

  /** The number of `si` start tags among `evs`; a self-closing `<si/>` is
      not counted. */
  function SiOpened(evs: seq<Event>): nat
  {
    if evs == [] then 0
    else
      var e := evs[|evs| - 1];
      SiOpened(evs[..|evs| - 1]) + (if e.Start? && e.name == "si" then 1 else 0)
  }

  /**
   * In shared strings, `si_index` counts the items opened so far, and an
   * item is selected exactly when it is open and its number (one less than
   * the count) is among the requested indices; the other rewriters never
   * track items.
   */
  lemma {:induction false} ItemsCounted(d: Dialect, font: string, evs: seq<Event>)
    ensures d.SharedStrings? ==> After(d, font, evs).siIndex == SiOpened(evs)
    ensures d.SharedStrings? && After(d, font, evs).convertSi ==>
      After(d, font, evs).inSi && After(d, font, evs).siIndex - 1 in d.indices
    ensures !d.SharedStrings? ==>
      After(d, font, evs).siIndex == 0 && !After(d, font, evs).inSi && !After(d, font, evs).convertSi
  {
    if evs != [] {
      ItemsCounted(d, font, evs[..|evs| - 1]);
    }
  }

  /** The styles rewriter keeps no state: its flags never leave the initial
      ones, so it rewrites every font element wherever it stands and never
      converts text. */
  lemma {:induction false} StylesStateless(font: string, evs: seq<Event>)
    ensures After(Styles, font, evs) == Initial
  {
    if evs != [] {
      StylesStateless(font, evs[..|evs| - 1]);
    }
  }

  // ---------------------------------------------------------------------
  // Which runs are converted
  // ---------------------------------------------------------------------

  /** True iff `e` opens or closes a run of dialect `d`. */
  predicate RunBoundary(d: Dialect, e: Event)
  {
    (e.Start? || e.End?) && IsRunTag(d, e.name)
  }

  /** True iff `e`, read in the flags `f`, is a font element the dialect
      rewrites and one of its watched attributes names the source font. */
  predicate MarksRun(d: Dialect, font: string, f: Flags, e: Event)
  {
    !d.Styles? && (e.Start? || e.Empty?)
    && RewritesAt(d, if e.Start? then OpenRun(d, OpenSi(d, f, e.name), e.name) else f, e.name)
    && FontHit(e.attrs, WatchOf(d), font)
  }

  /** True iff `evs[j]` marked its run and no run has opened or closed after
      it. */
  predicate MarkedAt(d: Dialect, font: string, evs: seq<Event>, j: int)
  {
    0 <= j < |evs| && MarksRun(d, font, After(d, font, evs[..j]), evs[j])
    && forall k :: j < k < |evs| ==> !RunBoundary(d, evs[k])
  }

  /** One event: the run is marked after it iff the event marks it, or the
      run was marked and the event neither opens nor closes one. */
  lemma NextMarks(d: Dialect, font: string, f: Flags, e: Event)
    ensures Next(d, font, f, e).runHasFont == (MarksRun(d, font, f, e) || (!RunBoundary(d, e) && f.runHasFont))
  {
  }

  /** An earlier mark survives one more event iff that event is no run
      boundary. */
  lemma MarkedAtExtend(d: Dialect, font: string, evs: seq<Event>, j: int)
    requires 0 <= j < |evs| - 1
    ensures MarkedAt(d, font, evs, j) <==>
      MarkedAt(d, font, evs[..|evs| - 1], j) && !RunBoundary(d, evs[|evs| - 1])
  {
    var prev := evs[..|evs| - 1];
    assert prev[..j] == evs[..j];
    assert forall k :: j < k < |prev| ==> prev[k] == evs[k];
  }

  /**
   * `run_has_font` holds after `evs` exactly when some font element in
   * `evs` named the source font inside a run and no run has opened or
   * closed since.
   */
  lemma {:induction false} RunMarkedIff(d: Dialect, font: string, evs: seq<Event>)
    ensures After(d, font, evs).runHasFont <==> exists j :: MarkedAt(d, font, evs, j)
  {
    if evs != [] {
      var n := |evs| - 1;
      var prev := evs[..n];
      RunMarkedIff(d, font, prev);
      NextMarks(d, font, After(d, font, prev), evs[n]);
      assert evs[..n] == prev;
      if After(d, font, evs).runHasFont {
        if MarksRun(d, font, After(d, font, prev), evs[n]) {
          assert MarkedAt(d, font, evs, n);
        } else {
          var j :| MarkedAt(d, font, prev, j);
          MarkedAtExtend(d, font, evs, j);
          assert MarkedAt(d, font, evs, j);
        }
      } else {
        forall j | MarkedAt(d, font, evs, j) ensures false {
          if j < n {
            MarkedAtExtend(d, font, evs, j);
          }
        }
      }
    }
  }

  /** In Word documents and slides, a text is converted exactly when it
      stands inside a run that a font element has marked since the run
      opened. */
  lemma TextConvertedIff(d: Dialect, font: string, convert: string -> string, evs: seq<Event>, i: nat)
    requires d.Docx? || d.Pptx?
    requires i < |evs| && evs[i].Text?
    ensures Outputs(d, font, convert, evs)[i] ==
      if exists j :: MarkedAt(d, font, evs[..i], j)
      then Text(convert(evs[i].text)) else evs[i]
  {
    EventWritten(d, font, convert, evs, i);
    RunMarkedIff(d, font, evs[..i]);
    FlagsConsistent(d, font, evs[..i]);
  }

  // ---------------------------------------------------------------------
  // Reading stops at the first error
  // ---------------------------------------------------------------------

  /**
   * Nothing after the end of the document or the first parse error is
   * read: what is written is the output for the events before it, one per
   * event, whatever follows.
   */
  lemma StopsAtFirstFailure(d: Dialect, font: string, convert: string -> string, input: seq<Read>, k: nat, rest: seq<Read>)
    requires k < |input| && !input[k].Ok?
    requires forall j :: 0 <= j < k ==> input[j].Ok?
    ensures |Rewritten(d, font, convert, input)| == k
    ensures Rewritten(d, font, convert, input[..k + 1] + rest) == Rewritten(d, font, convert, input)
  {
    LiveStopsAt(input, k);
    LiveStopsAt(input[..k + 1] + rest, k);
    assert (input[..k + 1] + rest)[..k] == input[..k];
  }

  /**
   * On a parse error the partial document written is exactly the beginning
   * of what a well-formed document with the same first events would have
   * produced.
   */
  lemma ErrorLeavesPrefix(d: Dialect, font: string, convert: string -> string, input: seq<Read>, k: nat, whole: seq<Event>)
    requires k < |input| && input[k] == Err
    requires k <= |whole|
    requires forall j :: 0 <= j < k ==> input[j] == Ok(whole[j])
    ensures Rewritten(d, font, convert, input) == Outputs(d, font, convert, whole)[..k]
  {
    LiveStopsAt(input, k);
    var live := LiveEvents(input);
    assert live == whole[..k];
    OutputsPrefix(d, font, convert, whole, k);
  }

  // ---------------------------------------------------------------------
  // Converting twice
  // ---------------------------------------------------------------------

  /** One event read again: the flags move as they did the first time, less
      the run mark. */
  lemma RereadNext(d: Dialect, font: string, convert: string -> string, f: Flags, e: Event)
    requires !d.SharedStrings? && font != TargetFont
    ensures Next(d, font, f.(runHasFont := false), Written(d, font, convert, f, e)) == Next(d, font, f, e).(runHasFont := false)
  {
    match e {
      case Start(name, attrs) => RereadStart(d, font, f, name, attrs);
      case Empty(name, attrs) => RereadEmpty(d, font, f, name, attrs);
      case Text(_) =>
      case End(_) =>
      case Markup(_) =>
    }
  }

  lemma RereadStart(d: Dialect, font: string, f: Flags, name: string, attrs: seq<Attr>)
    requires !d.SharedStrings? && font != TargetFont
    ensures var f1 := OpenRun(d, OpenSi(d, f, name), name);
      var written := if RewritesAt(d, f1, name) then RewrittenAttrs(attrs, WatchOf(d), font) else attrs;
      Next(d, font, f.(runHasFont := false), Start(name, written)) == Next(d, font, f, Start(name, attrs)).(runHasFont := false)
  {
    var f1 := OpenRun(d, OpenSi(d, f, name), name);
    assert OpenSi(d, f, name) == f;
    assert OpenSi(d, f.(runHasFont := false), name) == f.(runHasFont := false);
    if RewritesAt(d, f1, name) {
      RewrittenAttrsSettle(attrs, WatchOf(d), font);
    }
  }

  lemma RereadEmpty(d: Dialect, font: string, f: Flags, name: string, attrs: seq<Attr>)
    requires !d.SharedStrings? && font != TargetFont
    ensures var written := if RewritesAt(d, f, name) then RewrittenAttrs(attrs, WatchOf(d), font) else attrs;
      Next(d, font, f.(runHasFont := false), Empty(name, written)) == Next(d, font, f, Empty(name, attrs)).(runHasFont := false)
  {
    if RewritesAt(d, f, name) {
      RewrittenAttrsSettle(attrs, WatchOf(d), font);
    }
  }

  /** One event read again: what was written is written unchanged. */
  lemma RereadWritten(d: Dialect, font: string, convert: string -> string, f: Flags, e: Event)
    requires !d.SharedStrings? && font != TargetFont
    ensures Written(d, font, convert, f.(runHasFont := false), Written(d, font, convert, f, e)) == Written(d, font, convert, f, e)
  {
    match e {
      case Start(name, attrs) =>
        if RewritesAt(d, OpenRun(d, OpenSi(d, f, name), name), name) {
          RewrittenAttrsSettle(attrs, WatchOf(d), font);
        }
      case Empty(name, attrs) =>
        if RewritesAt(d, f, name) {
          RewrittenAttrsSettle(attrs, WatchOf(d), font);
        }
      case Text(_) =>
      case End(_) =>
      case Markup(_) =>
    }
  }

  /**
   * Reading the written events again, a Word, slide or styles rewriter
   * sees the same flags except that no run is ever marked: every watched
   * attribute that named the source font now names the target font.
   */
  lemma {:induction false} RereadFlags(d: Dialect, font: string, convert: string -> string, evs: seq<Event>)
    requires !d.SharedStrings? && font != TargetFont
    ensures After(d, font, Outputs(d, font, convert, evs)) == After(d, font, evs).(runHasFont := false)
  {
    if evs != [] {
      var n := |evs| - 1;
      var prev := evs[..n];
      RereadFlags(d, font, convert, prev);
      var out := Outputs(d, font, convert, evs);
      assert out[..n] == Outputs(d, font, convert, prev);
      RereadNext(d, font, convert, After(d, font, prev), evs[n]);
    }
  }

  /** Converting a converted Word document, slide or styles part again
      changes nothing. */
  lemma ConvertTwice(d: Dialect, font: string, convert: string -> string, evs: seq<Event>)
    requires !d.SharedStrings? && font != TargetFont
    ensures Outputs(d, font, convert, Outputs(d, font, convert, evs)) == Outputs(d, font, convert, evs)
  {
    var out := Outputs(d, font, convert, evs);
    OutputsAt(d, font, convert, evs);
    OutputsAt(d, font, convert, out);
    forall i | 0 <= i < |evs|
      ensures Outputs(d, font, convert, out)[i] == out[i]
    {
      RereadFlags(d, font, convert, evs[..i]);
      OutputsPrefix(d, font, convert, evs, i);
      RereadWritten(d, font, convert, After(d, font, evs[..i]), evs[i]);
    }
  }
}
