/**
 * The XML vocabulary the OOXML rewriters work in: the events a streaming
 * reader yields, element-name matching up to a namespace prefix, the font
 * attributes each document kind watches, and decimal `usize` parsing.
 *
 * Names, attribute keys, attribute values and text are the reader's
 * decoded strings; tokenising, escaping and unescaping are not modelled.
 */
module Xml {

  /** An attribute as the reader reports it: key and decoded value. */
  datatype Attr = Attr(key: string, value: string)

  /** The events the rewriters distinguish.  `Markup` stands for CDATA, the
      XML declaration, processing instructions, comments and DOCTYPE, which
      every rewriter copies unchanged. */
  datatype Event =
    | Start(name: string, attrs: seq<Attr>)
    | Empty(name: string, attrs: seq<Attr>)
    | Text(text: string)
    | End(name: string)
    | Markup(raw: string)

  /** One result of `read_event_into`: an event, the end of the document, or
      a parse error. */
  datatype Read = Ok(ev: Event) | Eof | Err

  /** The events read before the end of the document or the first error. */
  function LiveEvents(input: seq<Read>): (r: seq<Event>)
    ensures |r| <= |input|
    ensures forall j :: 0 <= j < |r| ==> input[j] == Ok(r[j])
    ensures |r| < |input| ==> !input[|r|].Ok?
  {
    if input == [] || !input[0].Ok? then [] else [input[0].ev] + LiveEvents(input[1..])
  }

  /** The events before the first failure are all that is read, and there
      are as many of them as reads before it. */
  lemma {:induction false} LiveStopsAt(input: seq<Read>, k: nat)
    requires k < |input| && !input[k].Ok?
    requires forall j :: 0 <= j < k ==> input[j].Ok?
    ensures LiveEvents(input) == LiveEvents(input[..k])
    ensures |LiveEvents(input)| == k
  {
    if k > 0 {
      LiveStopsAt(input[1..], k - 1);
      assert input[1..][..k - 1] == input[..k][1..];
    }
  }

  datatype Option<T> = None | Some(value: T)

  /** The font every matching font attribute is rewritten to (lib.rs:9). */
  const TargetFont: string := "Myanmar Text"

  predicate StartsWith(s: string, prefix: string)
  {
    |prefix| <= |s| && s[..|prefix|] == prefix
  }

  predicate EndsWith(s: string, suffix: string)
  {
    |suffix| <= |s| && s[|s| - |suffix|..] == suffix
  }

  // ---------------------------------------------------------------------
  // Element names
  // ---------------------------------------------------------------------

  /** `tag_matches`: the name is `local`, or it ends with `local` right after
      a colon. */
  predicate TagMatches(name: string, local: string)
    ensures name == local ==> TagMatches(name, local)
    ensures TagMatches(name, local) ==> EndsWith(name, local)
  {
    if name == local then true
    else if EndsWith(name, local) then
      var idx := |name| - |local|;
      idx > 0 && name[idx - 1] == ':'
    else false
  }

  /** A name matches `local` exactly when it is `local` itself or `local`
      under some namespace prefix. */
  lemma TagMatchesIff(name: string, local: string)
    ensures TagMatches(name, local) <==> name == local || exists p :: name == p + ":" + local
  {
    if TagMatches(name, local) && name != local {
      var idx := |name| - |local|;
      var p := name[..idx - 1];
      assert name == p + ":" + local by {
        assert name == name[..idx - 1] + [name[idx - 1]] + name[idx..];
      }
    }
    if name != local && exists p :: name == p + ":" + local {
      var p :| name == p + ":" + local;
      assert name[|name| - |local|..] == local;
      assert name[|p|] == ':';
    }
  }

  // ---------------------------------------------------------------------
  // Font attributes
  // ---------------------------------------------------------------------

  /** Which attributes carry a font name: `w:ascii` and `w:hAnsi` in Word
      run properties, `val` in spreadsheet fonts, `typeface` in slides. */
  datatype Watch = WordFont | ValAttr | Typeface

  /** True iff `key` is one of the attributes `w` watches (lib.rs:178,
      291, 404, 671); the spreadsheet and slide keys may carry any prefix. */
  predicate Watched(w: Watch, key: string)
  {
    match w
    case WordFont => key == "w:hAnsi" || key == "w:ascii"
    case ValAttr => key == "val" || EndsWith(key, ":val")
    case Typeface => key == "typeface" || EndsWith(key, ":typeface")
  }

  /** True iff `a` is a watched attribute naming the source font. */
  predicate NamesFont(a: Attr, w: Watch, font: string)
  {
    Watched(w, a.key) && a.value == font
  }

  /** The attribute written for `a`: the target font in place of the source
      font in a watched attribute, `a` itself otherwise. */
  function RewriteAttr(a: Attr, w: Watch, font: string): Attr
  {
    if NamesFont(a, w, font) then Attr(a.key, TargetFont) else a
  }

  /** The attribute list written for `attrs`, one attribute for each. */
  function RewrittenAttrs(attrs: seq<Attr>, w: Watch, font: string): seq<Attr>
  {
    seq(|attrs|, i requires 0 <= i < |attrs| => RewriteAttr(attrs[i], w, font))
  }

  /** True iff some attribute of `attrs` names the source font. */
  predicate FontHit(attrs: seq<Attr>, w: Watch, font: string)
  {
    exists i :: 0 <= i < |attrs| && NamesFont(attrs[i], w, font)
  }

  /**
   * The attribute loop of every font-element branch: each attribute is
   * pushed in turn, with the target font in place of the source font where
   * the attribute is watched; `hit` records whether that happened.
   */
  method RewriteFontAttrs(attrs: seq<Attr>, w: Watch, font: string) returns (written: seq<Attr>, hit: bool)
    ensures |written| == |attrs|
    ensures forall i :: 0 <= i < |attrs| ==> written[i].key == attrs[i].key
    ensures forall i :: 0 <= i < |attrs| ==>
      written[i].value == (if NamesFont(attrs[i], w, font) then TargetFont else attrs[i].value)
    ensures hit <==> exists i :: 0 <= i < |attrs| && NamesFont(attrs[i], w, font)
  {
    written := [];
    hit := false;
    for k := 0 to |attrs|
      invariant |written| == k
      invariant forall i :: 0 <= i < k ==> written[i] == RewriteAttr(attrs[i], w, font)
      invariant hit <==> exists i :: 0 <= i < k && NamesFont(attrs[i], w, font)
    {
      var a := attrs[k];
      if Watched(w, a.key) && a.value == font {
        hit := true;
        written := written + [Attr(a.key, TargetFont)];
      } else {
        written := written + [a];
      }
    }
  }

  /** What the attribute loop writes is `RewrittenAttrs`, and its flag is
      `FontHit`. */
  lemma RewriteFontAttrsSpec(attrs: seq<Attr>, w: Watch, font: string, written: seq<Attr>, hit: bool)
    requires |written| == |attrs|
    requires forall i :: 0 <= i < |attrs| ==> written[i].key == attrs[i].key
    requires forall i :: 0 <= i < |attrs| ==>
      written[i].value == (if NamesFont(attrs[i], w, font) then TargetFont else attrs[i].value)
    requires hit <==> exists i :: 0 <= i < |attrs| && NamesFont(attrs[i], w, font)
    ensures written == RewrittenAttrs(attrs, w, font)
    ensures hit == FontHit(attrs, w, font)
  {
    forall i | 0 <= i < |attrs| ensures written[i] == RewrittenAttrs(attrs, w, font)[i] {
    }
  }

  /** Once the target font differs from the source font, no watched attribute
      naming the source font is left, and rewriting again changes nothing. */
  lemma RewrittenAttrsSettle(attrs: seq<Attr>, w: Watch, font: string)
    requires font != TargetFont
    ensures !FontHit(RewrittenAttrs(attrs, w, font), w, font)
    ensures RewrittenAttrs(RewrittenAttrs(attrs, w, font), w, font) == RewrittenAttrs(attrs, w, font)
  {
    var r := RewrittenAttrs(attrs, w, font);
    forall i | 0 <= i < |r| ensures !NamesFont(r[i], w, font) {
    }
  }

  // ---------------------------------------------------------------------
  // usize parsing
  // ---------------------------------------------------------------------

  /** The largest `usize` on a 64-bit target. */
  const UsizeMax: nat := 0xFFFF_FFFF_FFFF_FFFF

  predicate IsDigit(c: char)
  {
    '0' <= c <= '9'
  }

  predicate AllDigits(s: string)
  {
    forall i :: 0 <= i < |s| ==> IsDigit(s[i])
  }

  function DigitValue(c: char): nat
    requires IsDigit(c)
  {
    c as int - '0' as int
  }

  /** The value of a string of decimal digits. */
  function DigitsValue(s: string): nat
    requires AllDigits(s)
  {
    if s == [] then 0
    else 10 * DigitsValue(s[..|s| - 1]) + DigitValue(s[|s| - 1])
  }

  /**
   * `str::parse::<usize>`: an optional `+`, then one or more decimal digits
   * whose value fits in 64 bits; anything else is an error.
   */
  function ParseUsize(s: string): (r: Option<nat>)
    ensures r.Some? ==> r.value <= UsizeMax
  {
    var digits := if s != [] && s[0] == '+' then s[1..] else s;
    if digits != [] && AllDigits(digits) && DigitsValue(digits) <= UsizeMax
    then Some(DigitsValue(digits))
    else None
  }

  /** The decimal digits of `n`, with no sign and no leading zero. */
  function ShowNat(n: nat): (s: string)
    ensures s != [] && AllDigits(s)
  {
    if n < 10 then [('0' as int + n) as char]
    else ShowNat(n / 10) + [('0' as int + n % 10) as char]
  }

  lemma {:induction false} ShowNatValue(n: nat)
    ensures DigitsValue(ShowNat(n)) == n
  {
    var s := ShowNat(n);
    if n >= 10 {
      ShowNatValue(n / 10);
      assert s[..|s| - 1] == ShowNat(n / 10);
    }
  }

  /** Every `usize` written in decimal parses back to itself. */
  lemma ParseShowNat(n: nat)
    requires n <= UsizeMax
    ensures ParseUsize(ShowNat(n)) == Some(n)
    ensures ParseUsize("+" + ShowNat(n)) == Some(n)
  {
    ShowNatValue(n);
    assert ("+" + ShowNat(n))[1..] == ShowNat(n);
  }

  /** The empty string, a lone sign, a minus sign and a value past 64 bits
      are all rejected. */
  lemma ParseUsizeRejects(s: string, n: nat)
    ensures ParseUsize("") == None && ParseUsize("+") == None
    ensures s != [] && s[0] == '-' ==> ParseUsize(s) == None
    ensures n > UsizeMax ==> ParseUsize(ShowNat(n)) == None
  {
    if s != [] && s[0] == '-' {
      assert !IsDigit(s[0]);
      assert !AllDigits(s);
    }
    ShowNatValue(n);
  }
}
