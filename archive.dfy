/**
 * The file-level converter: `convert_file` picks a converter by the source
 * path's extension, and the Office converters copy every entry of the zip
 * archive to the new archive, rewriting only the document, slide, shared
 * strings and styles parts.
 *
 * Zip reading and writing, compression and file I/O are not modelled: an
 * archive is the sequence of its entries in order, and an entry written
 * by a rewriter carries the events written rather than their bytes.  XML
 * tokenising is the parameter `tokens`, given the part's bytes and whether
 * the reader trims whitespace around text.
 */
module Archive {
  import opened Xml
  import Rewriters
  import XlsxIndex
  import Transcoder

  type Byte = b: int | 0 <= b < 256

  /** A zip entry as read: its name, its contents and whether it is a
      directory. */
  datatype Entry = Entry(name: string, data: seq<Byte>, isDir: bool)

  /** What the new archive holds for an entry. */
  datatype Body = Copied(bytes: seq<Byte>) | Written(events: seq<Event>)
  datatype Output = Directory(name: string) | File(name: string, body: Body)

  const DocumentPart := "word/document.xml"
  const SharedStringsPart := "xl/sharedStrings.xml"
  const StylesPart := "xl/styles.xml"

  predicate IsSlide(name: string)
  {
    StartsWith(name, "ppt/slides/") && EndsWith(name, ".xml")
  }

  predicate IsWorksheet(name: string)
  {
    StartsWith(name, "xl/worksheets/") && EndsWith(name, ".xml")
  }

  // ---------------------------------------------------------------------
  // convert_office_file
  // ---------------------------------------------------------------------

  /** What a Word or PowerPoint conversion writes for one entry. */
  function OfficeEntry(e: Entry, font: string, tokens: (seq<Byte>, bool) -> seq<Read>): Output
  {
    if e.isDir then Directory(e.name)
    else if e.name == DocumentPart then
      File(e.name, Written(Rewriters.Rewritten(Rewriters.Docx, font, Transcoder.Transcoded, tokens(e.data, false))))
    else if IsSlide(e.name) then
      File(e.name, Written(Rewriters.Rewritten(Rewriters.Pptx, font, Transcoder.Transcoded, tokens(e.data, false))))
    else File(e.name, Copied(e.data))
  }

  /** `convert_office_file`: one entry written for each entry read, in
      order. */
  method ConvertOfficeFile(entries: seq<Entry>, font: string, tokens: (seq<Byte>, bool) -> seq<Read>)
    returns (out: seq<Output>)
    ensures |out| == |entries|
    ensures forall i :: 0 <= i < |entries| ==> out[i] == OfficeEntry(entries[i], font, tokens)
  {
    out := [];
    for i := 0 to |entries|
      invariant |out| == i
      invariant forall k :: 0 <= k < i ==> out[k] == OfficeEntry(entries[k], font, tokens)
    {
      var file := entries[i];
      if file.isDir {
        out := out + [Directory(file.name)];
        continue;
      }
      var updated: Option<seq<Event>>;
      if file.name == DocumentPart {
        var written := Rewriters.ProcessDocxXml(tokens(file.data, false), font);
        updated := Some(written);
      } else if StartsWith(file.name, "ppt/slides/") && EndsWith(file.name, ".xml") {
        var written := Rewriters.ProcessPptxSlide(tokens(file.data, false), font);
        updated := Some(written);
      } else {
        updated := None;
      }
      var body := if updated.Some? then Written(updated.value) else Copied(file.data);
      out := out + [File(file.name, body)];
    }
  }

  /** Every entry keeps its name and kind; only the main document and the
      slides are rewritten, and every other file is copied byte for byte. */
  lemma OfficeRouting(e: Entry, font: string, tokens: (seq<Byte>, bool) -> seq<Read>)
    ensures OfficeEntry(e, font, tokens).name == e.name
    ensures OfficeEntry(e, font, tokens).Directory? <==> e.isDir
    ensures OfficeEntry(e, font, tokens).File? && OfficeEntry(e, font, tokens).body.Written? <==>
      !e.isDir && (e.name == DocumentPart || IsSlide(e.name))
    ensures OfficeEntry(e, font, tokens).File? && OfficeEntry(e, font, tokens).body.Copied? ==>
      OfficeEntry(e, font, tokens).body.bytes == e.data
  {
  }

  // ---------------------------------------------------------------------
  // convert_xlsx_file
  // ---------------------------------------------------------------------

  /** The styles part the indices are read from: the first file named
      `xl/styles.xml`, and nothing when there is none. */
  function StylesData(entries: seq<Entry>): (r: seq<Byte>)
    ensures r != [] ==> exists i :: 0 <= i < |entries| && !entries[i].isDir && entries[i].name == StylesPart
  {
    if entries == [] then []
    else if !entries[0].isDir && entries[0].name == StylesPart then entries[0].data
    else StylesData(entries[1..])
  }

  /** The styles part is the first one. */
  lemma {:induction false} StylesDataIsFirst(entries: seq<Entry>, i: nat)
    requires i < |entries| && !entries[i].isDir && entries[i].name == StylesPart
    requires forall k :: 0 <= k < i ==> entries[k].isDir || entries[k].name != StylesPart
    ensures StylesData(entries) == entries[i].data
  {
    if i > 0 {
      StylesDataIsFirst(entries[1..], i - 1);
    }
  }

  /** The shared strings the worksheets among `entries` select, added to
      `acc`. */
  function SharedIndices(entries: seq<Entry>, ids: set<nat>, xfs: seq<nat>,
                         tokens: (seq<Byte>, bool) -> seq<Read>, acc: set<nat>): set<nat>
  {
    if entries == [] then acc
    else
      var n := |entries| - 1;
      var before := SharedIndices(entries[..n], ids, xfs, tokens, acc);
      var e := entries[n];
      if !e.isDir && IsWorksheet(e.name)
      then XlsxIndex.Collected(ids, xfs, LiveEvents(tokens(e.data, true)), before)
      else before
  }

  /** True iff worksheet `entries[w]` has a selected cell whose text reads
      as `n`. */
  ghost predicate SelectedIn(entries: seq<Entry>, ids: set<nat>, xfs: seq<nat>,
                       tokens: (seq<Byte>, bool) -> seq<Read>, w: int, n: nat)
  {
    0 <= w < |entries| && !entries[w].isDir && IsWorksheet(entries[w].name)
    && exists j :: XlsxIndex.FoundAt(ids, xfs, LiveEvents(tokens(entries[w].data, true)), j, n)
  }

  /** A shared string is selected exactly when some worksheet has a cell
      that holds it in a source-font format. */
  lemma {:induction false} SharedIndicesIff(entries: seq<Entry>, ids: set<nat>, xfs: seq<nat>,
                                            tokens: (seq<Byte>, bool) -> seq<Read>, n: nat)
    ensures n in SharedIndices(entries, ids, xfs, tokens, {}) <==>
      exists w :: SelectedIn(entries, ids, xfs, tokens, w, n)
  {
    if entries != [] {
      var k := |entries| - 1;
      var prev := entries[..k];
      SharedIndicesIff(prev, ids, xfs, tokens, n);
      SelectedInPrefix(entries, ids, xfs, tokens, n);
      LastEntryIff(entries, ids, xfs, tokens, n);
      if exists w :: SelectedIn(entries, ids, xfs, tokens, w, n) {
        var w :| SelectedIn(entries, ids, xfs, tokens, w, n);
        if w < k {
          assert SelectedIn(prev, ids, xfs, tokens, w, n);
        }
      }
      if n in SharedIndices(prev, ids, xfs, tokens, {}) {
        var w :| SelectedIn(prev, ids, xfs, tokens, w, n);
        assert SelectedIn(entries, ids, xfs, tokens, w, n);
      }
    }
  }

  /** Selection in a worksheet before the last entry does not depend on the
      last entry. */
  lemma SelectedInPrefix(entries: seq<Entry>, ids: set<nat>, xfs: seq<nat>,
                         tokens: (seq<Byte>, bool) -> seq<Read>, n: nat)
    requires entries != []
    ensures forall w :: 0 <= w < |entries| - 1 ==>
      SelectedIn(entries, ids, xfs, tokens, w, n) == SelectedIn(entries[..|entries| - 1], ids, xfs, tokens, w, n)
  {
    var prev := entries[..|entries| - 1];
    forall w | 0 <= w < |entries| - 1
      ensures SelectedIn(entries, ids, xfs, tokens, w, n) == SelectedIn(prev, ids, xfs, tokens, w, n)
    {
      assert prev[w] == entries[w];
    }
  }

  /** The last entry adds exactly the shared strings its cells select. */
  lemma LastEntryIff(entries: seq<Entry>, ids: set<nat>, xfs: seq<nat>,
                     tokens: (seq<Byte>, bool) -> seq<Read>, n: nat)
    requires entries != []
    ensures n in SharedIndices(entries, ids, xfs, tokens, {}) <==>
      n in SharedIndices(entries[..|entries| - 1], ids, xfs, tokens, {})
      || SelectedIn(entries, ids, xfs, tokens, |entries| - 1, n)
  {
    var k := |entries| - 1;
    var e := entries[k];
    if !e.isDir && IsWorksheet(e.name) {
      XlsxIndex.CollectedIff(ids, xfs, LiveEvents(tokens(e.data, true)), SharedIndices(entries[..k], ids, xfs, tokens, {}), n);
    }
  }

  /** The shared strings selected for conversion in an archive. */
  function Selected(entries: seq<Entry>, font: string, tokens: (seq<Byte>, bool) -> seq<Read>): set<nat>
  {
    var styles := XlsxIndex.StylesAfter(font, LiveEvents(tokens(StylesData(entries), true)));
    SharedIndices(entries, styles.sourceFontIds, styles.xfFontIds, tokens, {})
  }

  /** Without a styles part the styles reader meets the end of an empty
      document at once, so no source font and no cell format is known and no
      shared string is selected. */
  lemma NoStylesPartSelectsNothing(entries: seq<Entry>, font: string, tokens: (seq<Byte>, bool) -> seq<Read>)
    requires forall i :: 0 <= i < |entries| ==> entries[i].isDir || entries[i].name != StylesPart
    requires tokens([], true) == [Eof]
    ensures Selected(entries, font, tokens) == {}
  {
    assert StylesData(entries) == [];
    assert LiveEvents([Eof]) == [];
    forall n | n in Selected(entries, font, tokens) ensures false {
      SharedIndicesIff(entries, {}, [], tokens, n);
    }
  }

  /** What an Excel conversion writes for one entry. */
  function XlsxEntry(e: Entry, font: string, indices: set<nat>, tokens: (seq<Byte>, bool) -> seq<Read>): Output
  {
    if e.isDir then Directory(e.name)
    else if e.name == SharedStringsPart then
      File(e.name, Written(Rewriters.Rewritten(Rewriters.SharedStrings(indices), font, Transcoder.Transcoded, tokens(e.data, false))))
    else if e.name == StylesPart then
      File(e.name, Written(Rewriters.Rewritten(Rewriters.Styles, font, Transcoder.Transcoded, tokens(e.data, false))))
    else File(e.name, Copied(e.data))
  }

  /** `convert_xlsx_file`: read the styles, collect the selected shared
      strings from every worksheet, then write one entry for each entry
      read, in order. */
  method ConvertXlsxFile(entries: seq<Entry>, font: string, tokens: (seq<Byte>, bool) -> seq<Read>)
    returns (out: seq<Output>)
    ensures |out| == |entries|
    ensures forall i :: 0 <= i < |entries| ==> out[i] == XlsxEntry(entries[i], font, Selected(entries, font, tokens), tokens)
  {
    var stylesXml := FindStyles(entries);
    var sourceFontIds, xfFontIds := XlsxIndex.ParseXlsxStyles(tokens(stylesXml, true), font);
    var sharedIndices := CollectWorksheets(entries, sourceFontIds, xfFontIds, tokens);
    out := WriteXlsxEntries(entries, font, sharedIndices, tokens);
  }

  /** The worksheet loop of `convert_xlsx_file`. */
  method CollectWorksheets(entries: seq<Entry>, sourceFontIds: set<nat>, xfFontIds: seq<nat>,
                           tokens: (seq<Byte>, bool) -> seq<Read>) returns (sharedIndices: set<nat>)
    ensures sharedIndices == SharedIndices(entries, sourceFontIds, xfFontIds, tokens, {})
  {
    sharedIndices := {};
    for i := 0 to |entries|
      invariant sharedIndices == SharedIndices(entries[..i], sourceFontIds, xfFontIds, tokens, {})
    {
      assert entries[..i + 1][..i] == entries[..i];
      var e := entries[i];
      if e.isDir {
        continue;
      }
      if StartsWith(e.name, "xl/worksheets/") && EndsWith(e.name, ".xml") {
        sharedIndices := XlsxIndex.CollectSharedStringIndices(tokens(e.data, true), sourceFontIds, xfFontIds, sharedIndices);
      }
    }
    assert entries[..|entries|] == entries;
  }

  /** The writing loop of `convert_xlsx_file`. */
  method WriteXlsxEntries(entries: seq<Entry>, font: string, sharedIndices: set<nat>,
                          tokens: (seq<Byte>, bool) -> seq<Read>) returns (out: seq<Output>)
    ensures |out| == |entries|
    ensures forall i :: 0 <= i < |entries| ==> out[i] == XlsxEntry(entries[i], font, sharedIndices, tokens)
  {
    out := [];
    for i := 0 to |entries|
      invariant |out| == i
      invariant forall k :: 0 <= k < i ==> out[k] == XlsxEntry(entries[k], font, sharedIndices, tokens)
    {
      var e := entries[i];
      if e.isDir {
        out := out + [Directory(e.name)];
        continue;
      }
      var updated: Option<seq<Event>>;
      if e.name == SharedStringsPart {
        var written := Rewriters.ProcessSharedStrings(tokens(e.data, false), font, sharedIndices);
        updated := Some(written);
      } else if e.name == StylesPart {
        var written := Rewriters.ProcessXlsxStyles(tokens(e.data, false), font);
        updated := Some(written);
      } else {
        updated := None;
      }
      var body := if updated.Some? then Written(updated.value) else Copied(e.data);
      out := out + [File(e.name, body)];
    }
  }

  /** The search for the styles part. */
  method FindStyles(entries: seq<Entry>) returns (data: seq<Byte>)
    ensures data == StylesData(entries)
  {
    var i := 0;
    while i < |entries|
      invariant i <= |entries|
      invariant StylesData(entries) == StylesData(entries[i..])
    {
      assert entries[i..][1..] == entries[i + 1..];
      if !entries[i].isDir && entries[i].name == StylesPart {
        return entries[i].data;
      }
      i := i + 1;
    }
    return [];
  }

  /** Every entry keeps its name and kind; only the shared strings and the
      styles are rewritten, and every other file is copied byte for byte. */
  lemma XlsxRouting(e: Entry, font: string, indices: set<nat>, tokens: (seq<Byte>, bool) -> seq<Read>)
    ensures XlsxEntry(e, font, indices, tokens).name == e.name
    ensures XlsxEntry(e, font, indices, tokens).Directory? <==> e.isDir
    ensures XlsxEntry(e, font, indices, tokens).File? && XlsxEntry(e, font, indices, tokens).body.Written? <==>
      !e.isDir && (e.name == SharedStringsPart || e.name == StylesPart)
    ensures XlsxEntry(e, font, indices, tokens).File? && XlsxEntry(e, font, indices, tokens).body.Copied? ==>
      XlsxEntry(e, font, indices, tokens).body.bytes == e.data
  {
  }

  // ---------------------------------------------------------------------
  // convert_file
  // ---------------------------------------------------------------------

  /** The position of the last `c` in `s`, or -1. */
  function LastIndex(s: string, c: char): (k: int)
    ensures -1 <= k < |s|
    ensures k >= 0 ==> s[k] == c
    ensures forall m :: k < m < |s| ==> s[m] != c
  {
    if s == [] then -1
    else if s[|s| - 1] == c then |s| - 1
    else LastIndex(s[..|s| - 1], c)
  }

  /** The last component of a `/`-separated path, skipping empty and `.`
      components. */
  function LastComponent(path: string): (r: Option<string>)
    ensures r.Some? ==> r.value != [] && r.value != "." && forall i :: 0 <= i < |r.value| ==> r.value[i] != '/'
    decreases |path|
  {
    var k := LastIndex(path, '/');
    var comp := path[k + 1..];
    if comp != [] && comp != "." then Some(comp)
    else if k < 0 then None
    else LastComponent(path[..k])
  }

  /** `Path::file_name`: the last component, unless it is `..`. */
  function FileName(path: string): (r: Option<string>)
    ensures r.Some? ==> r.value != [] && r.value != "." && r.value != ".."
    ensures r.Some? ==> forall i :: 0 <= i < |r.value| ==> r.value[i] != '/'
  {
    match LastComponent(path)
    case Some(c) => if c == ".." then None else Some(c)
    case None => None
  }

  /** `Path::extension`: what follows the last `.` of the file name, when
      that `.` is not its first character. */
  function Extension(path: string): (r: Option<string>)
    ensures r.Some? ==> forall i :: 0 <= i < |r.value| ==> r.value[i] != '/' && r.value[i] != '.'
    ensures r.Some? ==> FileName(path).Some?
  {
    match FileName(path)
    case None => None
    case Some(f) => var k := LastIndex(f, '.'); if k <= 0 then None else Some(f[k + 1..])
  }

  function AsciiLower(s: string): (r: string)
    ensures |r| == |s|
    ensures forall i :: 0 <= i < |s| ==> r[i] == if 'A' <= s[i] <= 'Z' then (s[i] as int + 32) as char else s[i]
  {
    if s == [] then [] else
      var c := s[0];
      [if 'A' <= c <= 'Z' then (c as int + 32) as char else c] + AsciiLower(s[1..])
  }

  /** The converter `convert_file` runs. */
  datatype Converter = TextConverter | OfficeConverter | XlsxConverter

  datatype Outcome = Run(converter: Converter) | Fail(message: string)

  const NotFound := "Source file not found."
  const Unsupported := "Unsupported file type. Please select txt, docx, xlsx, or pptx."

  /** `convert_file`: a missing source is an error; otherwise the
      lower-cased extension chooses the converter, and any other extension
      is an error. */
  function ConvertFile(sourcePath: string, sourceExists: bool): (r: Outcome)
    ensures r == Fail(NotFound) <==> !sourceExists
    ensures r.Fail? ==> r.message == NotFound || r.message == Unsupported
  {
    if !sourceExists then Fail(NotFound)
    else
      var ext := AsciiLower(match Extension(sourcePath) case Some(x) => x case None => "");
      if ext == "txt" then Run(TextConverter)
      else if ext == "docx" || ext == "pptx" then Run(OfficeConverter)
      else if ext == "xlsx" then Run(XlsxConverter)
      else Fail(Unsupported)
  }

  /** The file name of `dir/name` is `name`, for a name that is a plain
      component. */
  lemma FileNameOf(dir: string, name: string)
    requires name != [] && name != "." && name != ".."
    requires forall i :: 0 <= i < |name| ==> name[i] != '/'
    ensures FileName(dir + "/" + name) == Some(name)
  {
    var path := dir + "/" + name;
    assert path == (dir + "/") + name;
    LastIndexAfter(dir + "/", name, '/');
    assert path[|dir| + 1..] == name;
  }

  /** A file named `stem.ext` in any directory has extension `ext`, as long
      as the stem does not start the name with its only dot. */
  lemma ExtensionOfName(dir: string, stem: string, ext: string)
    requires stem != [] && stem != "."
    requires forall i :: 0 <= i < |stem| ==> stem[i] != '/'
    requires forall i :: 0 <= i < |ext| ==> ext[i] != '/' && ext[i] != '.'
    ensures Extension(dir + "/" + stem + "." + ext) == Some(ext)
  {
    var name := stem + "." + ext;
    assert forall i :: 0 <= i < |name| ==> name[i] != '/' by {
      forall i | 0 <= i < |name| ensures name[i] != '/' {
        if i < |stem| { assert name[i] == stem[i]; }
        else if i > |stem| { assert name[i] == ext[i - |stem| - 1]; }
      }
    }
    if |stem| == 1 {
      assert stem == [stem[0]] && name[0] == stem[0];
    }
    assert name != "..";
    FileNameOf(dir, name);
    assert dir + "/" + stem + "." + ext == dir + "/" + name;
    assert name == (stem + ".") + ext;
    LastIndexAfter(stem + ".", ext, '.');
    assert name[|stem| + 1..] == ext;
  }

  /** The last `c` of `prefix + rest` ends `prefix` when `rest` has no `c`. */
  lemma LastIndexAfter(prefix: string, rest: string, c: char)
    requires prefix != [] && prefix[|prefix| - 1] == c
    requires forall i :: 0 <= i < |rest| ==> rest[i] != c
    ensures LastIndex(prefix + rest, c) == |prefix| - 1
  {
    var s := prefix + rest;
    assert s[|prefix| - 1] == c;
    assert forall m :: |prefix| <= m < |s| ==> s[m] == rest[m - |prefix|];
  }

  /** The lower-cased extension decides the converter, whatever its case. */
  lemma ConvertFileIff(sourcePath: string, sourceExists: bool)
    ensures !sourceExists ==> ConvertFile(sourcePath, sourceExists) == Fail(NotFound)
    ensures sourceExists ==> (ConvertFile(sourcePath, sourceExists) == Run(OfficeConverter) <==>
      Extension(sourcePath).Some? && AsciiLower(Extension(sourcePath).value) in {"docx", "pptx"})
    ensures sourceExists ==> (ConvertFile(sourcePath, sourceExists) == Run(XlsxConverter) <==>
      Extension(sourcePath).Some? && AsciiLower(Extension(sourcePath).value) == "xlsx")
    ensures sourceExists ==> (ConvertFile(sourcePath, sourceExists) == Run(TextConverter) <==>
      Extension(sourcePath).Some? && AsciiLower(Extension(sourcePath).value) == "txt")
    ensures sourceExists && Extension(sourcePath).None? ==> ConvertFile(sourcePath, sourceExists) == Fail(Unsupported)
  {
    assert AsciiLower("") == "";
  }

  /** `convert_text_file`: the whole text transcoded. */
  method ConvertTextFile(content: string) returns (converted: string)
    ensures converted == Transcoder.Transcoded(content)
  {
    converted := Transcoder.WinToMyanmar3(content);
  }
}
