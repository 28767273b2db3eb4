/**
 * `parseTomlConnection`: reads one `[connections.<name>]` section of the
 * per-user configuration file by text scanning, and returns its `key = value`
 * pairs as a map.
 */
module TomlSection {
  import opened Wrappers
  import opened JsText

  /**
   * The one key a plain-object assignment cannot store: assigning a string to
   * `obj["__proto__"]` goes to the prototype setter, which ignores it.
   */
  const ProtoKey: string := "__proto__"

  /** What one matching line contributes: a key and its cleaned value. */
  datatype Entry = Entry(key: string, value: string)

  predicate NoQuote(s: string) {
    forall i :: 0 <= i < |s| ==> s[i] != '"'
  }

  function QuoteIf(present: bool): string {
    if present then "\"" else ""
  }

  /**
   * One way the text after `=` can be read by `\s*"?([^"\n]+)"?\s*$`:
   * space, an optional quote, the captured body, an optional quote, space.
   */
  datatype ValueShape = ValueShape(lead: string, open: bool, body: string, close: bool, trail: string) {
    function Text(): string {
      lead + QuoteIf(open) + body + QuoteIf(close) + trail
    }

    predicate Valid() {
      AllSpace(lead) && |body| > 0 && NoQuote(body) && NoNewline(body) && AllSpace(trail)
    }
  }

  /** One way a whole line can be read by `^\s*(\w+)\s*=\s*"?([^"\n]+)"?\s*$`. */
  datatype LineShape = LineShape(indent: string, key: string, gap: string, value: ValueShape) {
    function Text(): string {
      indent + key + gap + "=" + value.Text()
    }

    predicate Valid() {
      AllSpace(indent) && |key| > 0 && AllWord(key) && AllSpace(gap) && value.Valid()
    }
  }

  /**
   * Matches the text after `=` and returns the trimmed capture. The regex
   * engine may capture different bodies for the same text (greedy matching
   * with backtracking), but `ValueComplete` shows that every reading trims
   * to the same string, so the choice does not matter.
   */
  function MatchValue(s: string): Option<string> {
    MatchTrimmed(Trim(s), |s|)
  }

  /** The decision of `MatchValue`, given the trimmed text `t` and the length `width` it had before trimming. */
  function MatchTrimmed(t: string, width: nat): Option<string> {
    if |t| == 0 then (if width > 0 then Some("") else None)
    else if t == "\"" then (if width > 1 then Some("") else None)
    else
      var inner := StripQuotes(t);
      if |inner| > 0 && NoQuote(inner) then Some(Trim(inner)) else None
  }

  /** `.replace(/^"|"$/g, '')`: drops one leading and one trailing quote. */
  function StripQuotes(s: string): string {
    var u := if |s| > 0 && s[0] == '"' then s[1..] else s;
    if |u| > 0 && u[|u| - 1] == '"' then u[..|u| - 1] else u
  }

  /**
   * One line of the section against the entry regex: the key and the
   * trimmed, unquoted value, or `None` when the line does not match. Lines
   * come from `split('\n')`, so they never contain a newline.
   */
  function MatchLine(line: string): Option<Entry> {
    MatchKey(TrimStart(line))
  }

  /** The line after its indentation: a `\w+` key must come first. */
  function MatchKey(r: string): Option<Entry> {
    var k := WordRun(r);
    if k == 0 then None else MatchEquals(r[..k], TrimStart(r[k..]))
  }

  /** The line after its key and the space that follows it: `=` must come next. */
  function MatchEquals(key: string, after: string): Option<Entry> {
    if |after| == 0 || after[0] != '=' then None
    else
      match MatchValue(after[1..])
      case None => None
      case Some(v) => Some(Entry(key, StripQuotes(v)))
  }

  /** The capture excludes `"`, so the quote stripping never removes anything. */
  lemma StripQuotesNoop(s: string)
    requires NoQuote(s)
    ensures StripQuotes(s) == s
  {
    if |s| > 0 { assert s[0] != '"' && s[|s| - 1] != '"'; }
  }

  /** Every reading of the value text is accepted, and all readings give the same trimmed body. */
  lemma ValueComplete(d: ValueShape)
    requires d.Valid()
    ensures MatchValue(d.Text()) == Some(Trim(d.body))
  {
    if d.open && d.close {
      ValueCompleteQuoted(d);
    } else if d.open {
      ValueCompleteOpen(d);
    } else if d.close {
      ValueCompleteClose(d);
    } else {
      ValueCompleteBare(d);
    }
  }

  lemma ValueCompleteQuoted(d: ValueShape)
    requires d.Valid() && d.open && d.close
    ensures MatchValue(d.Text()) == Some(Trim(d.body))
  {
    assert d.Text() == d.lead + ("\"" + d.body + "\"") + d.trail;
    QuotedCase(d.lead, d.body, d.trail);
  }

  lemma QuotedCase(lead: string, body: string, trail: string)
    requires AllSpace(lead) && AllSpace(trail) && |body| > 0 && NoQuote(body)
    ensures MatchValue(lead + ("\"" + body + "\"") + trail) == Some(Trim(body))
  {
    var core := "\"" + body + "\"";
    TrimPadded(lead, core, trail);
    assert core[0] == '"' && core[|core| - 1] == '"';
    TrimNoop(core);
    MatchValueOfTrim(lead + core + trail, core);
    QuotedInner(body, |lead + core + trail|);
  }

  lemma QuotedInner(body: string, width: nat)
    requires |body| > 0 && NoQuote(body)
    ensures MatchTrimmed("\"" + body + "\"", width) == Some(Trim(body))
  {
    var core := "\"" + body + "\"";
    assert core[1..] == body + "\"";
    assert (body + "\"")[..|body|] == body;
    assert StripQuotes(core) == body;
    assert |core| > 1;
    MatchTrimmedInner(core, width, body);
  }

  lemma MatchValueOfTrim(s: string, core: string)
    requires Trim(s) == core
    ensures MatchValue(s) == MatchTrimmed(core, |s|)
  {
  }

  lemma MatchTrimmedInner(t: string, width: nat, inner: string)
    requires |t| > 0 && t != "\"" && StripQuotes(t) == inner && |inner| > 0 && NoQuote(inner)
    ensures MatchTrimmed(t, width) == Some(Trim(inner))
  {
  }

  /** `body` splits into `w`, which is empty or ends in a non-space, and trailing space. */
  lemma SplitTrailingSpace(body: string) returns (w: string, pad: string)
    ensures body == w + pad && AllSpace(pad)
    ensures |w| > 0 ==> !IsSpace(w[|w| - 1])
  {
    var n := TrailingSpaces(body);
    w := body[..|body| - n];
    pad := body[|body| - n..];
    assert body == w + pad;
    forall i | 0 <= i < |pad| ensures IsSpace(pad[i]) { assert pad[i] == body[|body| - n + i]; }
    if |w| > 0 { assert w[|w| - 1] == body[|body| - n - 1]; }
  }

  lemma ValueCompleteOpen(d: ValueShape)
    requires d.Valid() && d.open && !d.close
    ensures MatchValue(d.Text()) == Some(Trim(d.body))
  {
    assert d.Text() == d.lead + "\"" + d.body + d.trail;
    OpenCase(d.lead, d.body, d.trail);
  }

  lemma OpenCase(lead: string, body: string, trail: string)
    requires AllSpace(lead) && AllSpace(trail) && |body| > 0 && NoQuote(body)
    ensures MatchValue(lead + "\"" + body + trail) == Some(Trim(body))
  {
    var s := lead + "\"" + body + trail;
    var w, pad := SplitTrailingSpace(body);
    OpenTrim(lead, w, pad, trail);
    assert s == lead + "\"" + (w + pad) + trail;
    MatchValueOfTrim(s, "\"" + w);
    OpenMatched(body, w, pad, |s|);
  }

  lemma OpenMatched(body: string, w: string, pad: string, width: nat)
    requires body == w + pad && AllSpace(pad)
    requires 0 < |body| < width && NoQuote(body)
    ensures MatchTrimmed("\"" + w, width) == Some(Trim(body))
  {
    TrimPaddedRight(w, pad);
    if |w| == 0 {
      OpenBlank(body, pad, w, width);
    } else {
      assert forall i :: 0 <= i < |w| ==> w[i] == body[i];
      OpenInner(w, width);
    }
  }

  lemma OpenBlank(body: string, pad: string, w: string, width: nat)
    requires body == w + pad && |w| == 0 && AllSpace(pad) && 0 < |body| < width
    ensures MatchTrimmed("\"" + w, width) == Some(Trim(body))
  {
    assert "\"" + w == "\"";
    assert body == pad;
    TrimAllSpace(body);
  }

  lemma OpenTrim(lead: string, w: string, pad: string, trail: string)
    requires AllSpace(lead) && AllSpace(pad) && AllSpace(trail)
    requires |w| > 0 ==> !IsSpace(w[|w| - 1])
    ensures Trim(lead + "\"" + (w + pad) + trail) == "\"" + w
  {
    var core := "\"" + w;
    assert lead + "\"" + (w + pad) + trail == lead + core + (pad + trail);
    AllSpaceConcat(pad, trail);
    TrimPadded(lead, core, pad + trail);
    TrimNoop(core);
  }

  lemma OpenInner(w: string, width: nat)
    requires |w| > 0 && NoQuote(w)
    ensures MatchTrimmed("\"" + w, width) == Some(Trim(w))
  {
    var core := "\"" + w;
    assert core[1..] == w;
    assert StripQuotes(core) == w;
    MatchTrimmedInner(core, width, w);
  }

  lemma ValueCompleteClose(d: ValueShape)
    requires d.Valid() && !d.open && d.close
    ensures MatchValue(d.Text()) == Some(Trim(d.body))
  {
    assert d.Text() == d.lead + d.body + "\"" + d.trail;
    CloseCase(d.lead, d.body, d.trail);
  }

  /** `body` splits into leading space and `w`, which is empty or starts with a non-space. */
  lemma SplitLeadingSpace(body: string) returns (pad: string, w: string)
    ensures body == pad + w && AllSpace(pad)
    ensures |w| > 0 ==> !IsSpace(w[0])
  {
    var n := LeadingSpaces(body);
    pad := body[..n];
    w := body[n..];
    assert body == pad + w;
  }

  lemma CloseCase(lead: string, body: string, trail: string)
    requires AllSpace(lead) && AllSpace(trail) && |body| > 0 && NoQuote(body)
    ensures MatchValue(lead + body + "\"" + trail) == Some(Trim(body))
  {
    var s := lead + body + "\"" + trail;
    var pad, w := SplitLeadingSpace(body);
    CloseTrim(lead, pad, w, trail);
    assert s == lead + (pad + w) + "\"" + trail;
    MatchValueOfTrim(s, w + "\"");
    CloseMatched(body, pad, w, |s|);
  }

  lemma CloseMatched(body: string, pad: string, w: string, width: nat)
    requires body == pad + w && AllSpace(pad)
    requires 0 < |body| < width && NoQuote(body)
    ensures MatchTrimmed(w + "\"", width) == Some(Trim(body))
  {
    TrimPaddedLeft(pad, w);
    if |w| == 0 {
      assert w + "\"" == "\"";
      assert body == pad;
      TrimAllSpace(body);
    } else {
      assert forall i :: 0 <= i < |w| ==> w[i] == body[|pad| + i];
      CloseInner(w, width);
    }
  }

  lemma CloseTrim(lead: string, pad: string, w: string, trail: string)
    requires AllSpace(lead) && AllSpace(pad) && AllSpace(trail)
    requires |w| > 0 ==> !IsSpace(w[0])
    ensures Trim(lead + (pad + w) + "\"" + trail) == w + "\""
  {
    var core := w + "\"";
    assert lead + (pad + w) + "\"" + trail == (lead + pad) + core + trail;
    AllSpaceConcat(lead, pad);
    TrimPadded(lead + pad, core, trail);
    TrimNoop(core);
  }

  lemma CloseInner(w: string, width: nat)
    requires |w| > 0 && NoQuote(w)
    ensures MatchTrimmed(w + "\"", width) == Some(Trim(w))
  {
    var core := w + "\"";
    assert core[..|core| - 1] == w;
    assert StripQuotes(core) == w;
    MatchTrimmedInner(core, width, w);
  }

  lemma ValueCompleteBare(d: ValueShape)
    requires d.Valid() && !d.open && !d.close
    ensures MatchValue(d.Text()) == Some(Trim(d.body))
  {
    assert d.Text() == d.lead + d.body + d.trail;
    BareCase(d.lead, d.body, d.trail);
  }

  lemma BareCase(lead: string, body: string, trail: string)
    requires AllSpace(lead) && AllSpace(trail) && |body| > 0 && NoQuote(body)
    ensures MatchValue(lead + body + trail) == Some(Trim(body))
  {
    var s := lead + body + trail;
    TrimPadded(lead, body, trail);
    MatchValueOfTrim(s, Trim(body));
    if |Trim(body)| > 0 {
      BareInner(body, |s|);
    }
  }

  lemma BareInner(body: string, width: nat)
    requires NoQuote(body) && |Trim(body)| > 0
    ensures MatchTrimmed(Trim(body), width) == Some(Trim(body))
  {
    var t := Trim(body);
    TrimNoQuote(body);
    StripQuotesNoop(t);
    assert t[0] != '"';
    TrimNoop(t);
    MatchTrimmedInner(t, width, t);
  }

  /** Whatever `MatchValue` accepts has a reading by the regex, and the result is that reading's trimmed body. */
  lemma ValueSound(s: string)
    requires NoNewline(s)
    requires MatchValue(s).Some?
    ensures exists d: ValueShape :: d.Valid() && d.Text() == s && Trim(d.body) == MatchValue(s).value
  {
    var t := Trim(s);
    var l, r := TrimSplit(s);
    NoNewlineSplit(l, t, r);
    if |t| == 0 {
      assert s == l + r;
      AllSpaceConcat(l, r);
      SoundBlank(s);
    } else if t == "\"" {
      SoundLoneQuote(l, r);
    } else {
      SoundGeneral(l, t, r);
    }
  }

  lemma SoundBlank(s: string)
    requires NoNewline(s) && AllSpace(s) && |s| > 0
    ensures exists d: ValueShape :: d.Valid() && d.Text() == s && Trim(d.body) == ""
  {
    var d := ValueShape("", false, s, false, "");
    assert d.Text() == s;
    TrimAllSpace(s);
    assert d.Valid();
  }

  lemma SoundLoneQuote(l: string, r: string)
    requires AllSpace(l) && AllSpace(r) && NoNewline(l) && NoNewline(r) && |l| + |r| > 0
    ensures exists d: ValueShape :: d.Valid() && d.Text() == l + "\"" + r && Trim(d.body) == ""
  {
    if |r| > 0 {
      var d := ValueShape(l, true, r, false, "");
      assert d.Text() == l + "\"" + r;
      TrimAllSpace(r);
      assert d.Valid();
    } else {
      var d := ValueShape("", false, l, true, "");
      assert d.Text() == l + "\"" + r;
      TrimAllSpace(l);
      assert d.Valid();
    }
  }

  lemma SoundGeneral(l: string, t: string, r: string)
    requires AllSpace(l) && AllSpace(r) && NoNewline(t) && |t| > 0 && t != "\""
    requires |StripQuotes(t)| > 0 && NoQuote(StripQuotes(t))
    ensures exists d: ValueShape :: d.Valid() && d.Text() == l + t + r && Trim(d.body) == Trim(StripQuotes(t))
  {
    var open, inner, close := QuoteSplit(t);
    NoNewlineSplit(QuoteIf(open), inner, QuoteIf(close));
    var d := ValueShape(l, open, inner, close, r);
    RegroupMiddle(l, QuoteIf(open), inner, QuoteIf(close), r);
    assert d.Valid();
  }

  /** `t` is an optional quote, what `StripQuotes` keeps, and an optional quote. */
  lemma QuoteSplit(t: string) returns (open: bool, inner: string, close: bool)
    ensures t == QuoteIf(open) + inner + QuoteIf(close)
    ensures inner == StripQuotes(t)
  {
    open := |t| > 0 && t[0] == '"';
    var u := if open then t[1..] else t;
    close := |u| > 0 && u[|u| - 1] == '"';
    inner := if close then u[..|u| - 1] else u;
    LeadingQuote(t, open, u);
    TrailingQuote(u, close, inner);
    assert t == QuoteIf(open) + (inner + QuoteIf(close));
  }

  lemma LeadingQuote(t: string, open: bool, u: string)
    requires open == (|t| > 0 && t[0] == '"')
    requires u == if open then t[1..] else t
    ensures t == QuoteIf(open) + u
  {
    if open {
      assert t == [t[0]] + t[1..];
    }
  }

  lemma TrailingQuote(u: string, close: bool, inner: string)
    requires close == (|u| > 0 && u[|u| - 1] == '"')
    requires inner == if close then u[..|u| - 1] else u
    ensures u == inner + QuoteIf(close)
  {
    if close {
      assert u == u[..|u| - 1] + [u[|u| - 1]];
    }
  }

  /**
   * A line made of indentation, a `\w+` key, space, `=` and the value text is
   * decided by the value text alone.
   */
  lemma MatchLineParts(indent: string, key: string, gap: string, vtext: string)
    requires AllSpace(indent) && |key| > 0 && AllWord(key) && AllSpace(gap)
    ensures MatchLine(indent + key + gap + "=" + vtext) == MatchEquals(key, "=" + vtext)
  {
    var tail := gap + "=" + vtext;
    var r := key + tail;
    assert indent + key + gap + "=" + vtext == indent + r;
    assert r[0] == key[0];
    TrimStartPadded(indent, r);
    KeyRun(key, tail);
    assert r[|key|..] == tail && r[..|key|] == key;
    assert tail == gap + ("=" + vtext);
    TrimStartPadded(gap, "=" + vtext);
  }

  lemma KeyRun(key: string, tail: string)
    requires AllWord(key)
    requires |tail| > 0 ==> !IsWordChar(tail[0])
    ensures WordRun(key + tail) == |key|
  {
    var s := key + tail;
    forall i | 0 <= i < |key| ensures IsWordChar(s[i]) { assert s[i] == key[i]; }
    if |tail| > 0 { assert s[|key|] == tail[0]; }
    WordRunExact(s, |key|);
  }

  /** Every reading of a line by the entry regex yields the entry `MatchLine` returns. */
  lemma LineComplete(d: LineShape)
    requires d.Valid()
    ensures MatchLine(d.Text()) == Some(Entry(d.key, Trim(d.value.body)))
  {
    MatchLineParts(d.indent, d.key, d.gap, d.value.Text());
    assert ("=" + d.value.Text())[1..] == d.value.Text();
    ValueComplete(d.value);
    TrimNoQuote(d.value.body);
    StripQuotesNoop(Trim(d.value.body));
  }

  lemma TrimNoQuote(s: string)
    requires NoQuote(s)
    ensures NoQuote(Trim(s))
  {
    var t := Trim(s);
    var a := LeadingSpaces(s);
    forall i | 0 <= i < |t| ensures t[i] != '"' { assert t[i] == s[a + i]; }
  }

  /** Whatever line `MatchLine` accepts has a reading by the entry regex that yields the same entry. */
  lemma LineSound(line: string)
    requires NoNewline(line)
    requires MatchLine(line).Some?
    ensures exists d: LineShape :: d.Valid() && d.Text() == line && MatchLine(line).value == Entry(d.key, Trim(d.value.body))
  {
    LineAccepts(line);
    var indent, key, gap, vtext := LineParts(line);
    NoNewlineSplit(indent + key + gap + "=", vtext, "");
    assert indent + key + gap + "=" + vtext + "" == line;
    MatchLineParts(indent, key, gap, vtext);
    assert ("=" + vtext)[1..] == vtext;
    LineSoundParts(indent, key, gap, vtext);
    StripQuotesNoop(MatchValue(vtext).value);
  }

  lemma LineSoundParts(indent: string, key: string, gap: string, vtext: string)
    requires AllSpace(indent) && |key| > 0 && AllWord(key) && AllSpace(gap)
    requires NoNewline(vtext) && MatchValue(vtext).Some?
    ensures NoQuote(MatchValue(vtext).value)
    ensures exists d: LineShape ::
      d.Valid() && d.Text() == indent + key + gap + "=" + vtext && d.key == key && Trim(d.value.body) == MatchValue(vtext).value
  {
    ValueSound(vtext);
    var v: ValueShape :| v.Valid() && v.Text() == vtext && Trim(v.body) == MatchValue(vtext).value;
    var d := LineShape(indent, key, gap, v);
    assert d.Text() == indent + key + gap + "=" + vtext;
    TrimNoQuote(v.body);
  }

  /** An accepted line, after its indentation, starts with a `\w+` key followed by space and `=`. */
  predicate KeyThenEquals(r: string) {
    && WordRun(r) > 0
    && var after := TrimStart(r[WordRun(r)..]);
    && |after| > 0 && after[0] == '='
  }

  lemma LineAccepts(line: string)
    requires MatchLine(line).Some?
    ensures KeyThenEquals(TrimStart(line))
  {
  }

  lemma IndentParts(line: string) returns (indent: string)
    ensures line == indent + TrimStart(line) && AllSpace(indent)
  {
    var n := LeadingSpaces(line);
    indent := line[..n];
    assert line == indent + line[n..];
    forall i | 0 <= i < |indent| ensures IsSpace(indent[i]) { assert indent[i] == line[i]; }
  }

  /** The pieces `MatchLine` cuts an accepted line into. */
  lemma LineParts(line: string) returns (indent: string, key: string, gap: string, vtext: string)
    requires KeyThenEquals(TrimStart(line))
    ensures line == indent + key + gap + "=" + vtext
    ensures AllSpace(indent) && |key| > 0 && AllWord(key) && AllSpace(gap)
  {
    indent := IndentParts(line);
    var tail;
    key, tail := KeyParts(TrimStart(line));
    gap, vtext := GapParts(tail);
    RegroupTail(indent, key, gap, "=", vtext);
  }

  lemma KeyParts(r: string) returns (key: string, tail: string)
    requires KeyThenEquals(r)
    ensures r == key + tail && |key| > 0 && AllWord(key)
    ensures var after := TrimStart(tail); |after| > 0 && after[0] == '='
  {
    var k := WordRun(r);
    key := r[..k];
    tail := r[k..];
    assert r == key + tail;
  }

  lemma GapParts(tail: string) returns (gap: string, vtext: string)
    requires var after := TrimStart(tail); |after| > 0 && after[0] == '='
    ensures tail == gap + "=" + vtext && AllSpace(gap)
  {
    var g := LeadingSpaces(tail);
    LeadingRunSpace(tail);
    gap := tail[..g];
    vtext := tail[g + 1..];
    SplitAround(tail, g);
  }

  lemma SplitAround(s: string, g: nat)
    requires g < |s|
    ensures s == s[..g] + [s[g]] + s[g + 1..]
  {
    assert s[g..] == [s[g]] + s[g + 1..];
    assert s == s[..g] + s[g..];
  }

  /** Two readings of the same line always agree on the key and the value. */
  lemma ReadingsAgree(d1: LineShape, d2: LineShape)
    requires d1.Valid() && d2.Valid() && d1.Text() == d2.Text()
    ensures d1.key == d2.key && Trim(d1.value.body) == Trim(d2.value.body)
  {
    LineComplete(d1);
    LineComplete(d2);
  }

  /** The entry each line yields, in order. */
  function MatchLines(lines: seq<string>): (es: seq<Option<Entry>>)
    ensures |es| == |lines|
    ensures forall i :: 0 <= i < |lines| ==> es[i] == MatchLine(lines[i])
  {
    seq(|lines|, i requires 0 <= i < |lines| => MatchLine(lines[i]))
  }

  /** `e` assigns `key`. */
  predicate Assigns(e: Option<Entry>, key: string) {
    e.Some? && e.value.key == key && key != ProtoKey
  }

  /** Each matched entry assigns its key, later entries overwriting earlier ones. */
  function Assign(es: seq<Option<Entry>>): map<string, string> {
    if |es| == 0 then map[]
    else
      var m := Assign(es[..|es| - 1]);
      match es[|es| - 1]
      case None => m
      case Some(e) => if e.key == ProtoKey then m else m[e.key := e.value]
  }

  lemma {:induction false} AssignKeys(es: seq<Option<Entry>>, key: string)
    ensures key in Assign(es) <==> exists i :: 0 <= i < |es| && Assigns(es[i], key)
  {
    if |es| > 0 {
      var init := es[..|es| - 1];
      AssignKeys(init, key);
      if exists i :: 0 <= i < |init| && Assigns(init[i], key) {
        var i :| 0 <= i < |init| && Assigns(init[i], key);
        assert es[i] == init[i];
      }
      if exists i :: 0 <= i < |es| && Assigns(es[i], key) {
        var i :| 0 <= i < |es| && Assigns(es[i], key);
        if i < |init| { assert init[i] == es[i]; }
      }
    }
  }

  lemma {:induction false} AssignLast(es: seq<Option<Entry>>, i: nat, key: string)
    requires i < |es| && Assigns(es[i], key)
    requires forall j :: i < j < |es| ==> !Assigns(es[j], key)
    ensures key in Assign(es) && Assign(es)[key] == es[i].value.value
  {
    var init := es[..|es| - 1];
    if i < |es| - 1 {
      assert init[i] == es[i];
      forall j | i < j < |init| ensures !Assigns(init[j], key) { assert init[j] == es[j]; }
      AssignLast(init, i, key);
      assert !Assigns(es[|es| - 1], key);
    }
  }

  /** `line` contributes `key` to the result map. */
  predicate Defines(line: string, key: string) {
    Assigns(MatchLine(line), key)
  }

  function ParseLines(lines: seq<string>): map<string, string> {
    Assign(MatchLines(lines))
  }

  lemma ParseLinesKeys(lines: seq<string>, key: string)
    ensures key in ParseLines(lines) <==> exists i :: 0 <= i < |lines| && Defines(lines[i], key)
  {
    AssignKeys(MatchLines(lines), key);
  }

  lemma ParseLinesLast(lines: seq<string>, i: nat, key: string)
    requires i < |lines| && Defines(lines[i], key)
    requires forall j :: i < j < |lines| ==> !Defines(lines[j], key)
    ensures key in ParseLines(lines) && ParseLines(lines)[key] == MatchLine(lines[i]).value.value
  {
    AssignLast(MatchLines(lines), i, key);
  }

  /** The literal header of the connection section named `name`. */
  function Header(name: string): string {
    "[connections." + name + "]"
  }

  /** `\n\s*\[` matches at position `k` of `s`: a newline, optional whitespace, then `[`. */
  predicate OpensSection(s: string, k: int) {
    && 0 <= k < |s| && s[k] == '\n'
    && var n := LeadingSpaces(s[k + 1..]);
    && k + 1 + n < |s| && s[k + 1 + n] == '['
  }

  /** The position of the first match of `\n\s*\[` at or after `k`, or `|s|` when there is none. */
  function SectionEndFrom(s: string, k: nat): (e: nat)
    requires k <= |s|
    decreases |s| - k
    ensures k <= e <= |s|
    ensures e < |s| ==> OpensSection(s, e)
    ensures forall j :: k <= j < e ==> !OpensSection(s, j)
  {
    if k == |s| then k
    else if OpensSection(s, k) then k
    else SectionEndFrom(s, k + 1)
  }

  function SectionEnd(s: string): nat {
    SectionEndFrom(s, 0)
  }

  /**
   * The text read for section `name`: from just after the first occurrence
   * of its header up to the next section header or the end of `content`;
   * `None` when the header does not occur.
   */
  function SectionText(content: string, name: string): Option<string> {
    var h := Header(name);
    match IndexOf(content, h)
    case None => None
    case Some(i) =>
      Some(SectionBody(content[i + |h|..]))
  }

  /** The text after a header, up to the next section boundary. */
  function SectionBody(after: string): string {
    after[..SectionEnd(after)]
  }

  /** `parseTomlConnection(content, connectionName)`. */
  function ParseTomlConnection(content: string, name: string): (r: map<string, string>)
    ensures (forall j :: !OccursAt(content, Header(name), j)) ==> r == map[]
  {
    match SectionText(content, name)
    case None => map[]
    case Some(text) => ParseLines(SplitLines(text))
  }

  /** A key is in the parse result exactly when some line of the section text defines it. */
  lemma ParseKeys(content: string, name: string, text: string, key: string)
    requires SectionText(content, name) == Some(text)
    ensures key in ParseTomlConnection(content, name) <==>
      exists i :: 0 <= i < |SplitLines(text)| && Defines(SplitLines(text)[i], key)
  {
    ParseOfSection(content, name, text);
    ParseLinesKeys(SplitLines(text), key);
  }

  lemma ParseOfSection(content: string, name: string, text: string)
    requires SectionText(content, name) == Some(text)
    ensures ParseTomlConnection(content, name) == ParseLines(SplitLines(text))
  {
  }

  /** Within the section, a later line defining a key overrides earlier ones. */
  lemma ParseLastWins(content: string, name: string, text: string, i: nat, key: string)
    requires SectionText(content, name) == Some(text)
    requires i < |SplitLines(text)| && Defines(SplitLines(text)[i], key)
    requires forall j :: i < j < |SplitLines(text)| ==> !Defines(SplitLines(text)[j], key)
    ensures key in ParseTomlConnection(content, name)
    ensures ParseTomlConnection(content, name)[key] == MatchLine(SplitLines(text)[i]).value.value
  {
    var lines := SplitLines(text);
    assert ParseTomlConnection(content, name) == ParseLines(lines);
    ParseLinesLast(lines, i, key);
  }

  lemma IndexOfFirst(s: string, pat: string, i: nat)
    requires OccursAt(s, pat, i)
    requires forall j :: 0 <= j < i ==> !OccursAt(s, pat, j)
    ensures IndexOf(s, pat) == Some(i)
  {
  }

  lemma SectionEndFirst(s: string, e: nat)
    requires OpensSection(s, e)
    requires forall j :: 0 <= j < e ==> !OpensSection(s, j)
    ensures SectionEnd(s) == e
  {
  }

  /** Text without a `[` holds no section boundary. */
  lemma NoBracketNoBoundary(s: string)
    requires forall i :: 0 <= i < |s| ==> s[i] != '['
    ensures SectionEnd(s) == |s|
  {
  }

  /** Position of the `[` that closes the section whose boundary newline is at `e`. */
  function BracketAfter(s: string, e: nat): nat
    requires e < |s|
  {
    e + 1 + LeadingSpaces(s[e + 1..])
  }

  /** `OpensSection` at `j` looks no further than the first non-space character after `j`. */
  lemma OpensSectionLocal(s: string, s': string, j: nat, m: nat)
    requires j < m <= |s| && m <= |s'| && s[..m] == s'[..m]
    requires j + 1 + LeadingSpaces(s[j + 1..]) < m
    ensures OpensSection(s, j) == OpensSection(s', j)
  {
    var n := LeadingSpaces(s[j + 1..]);
    assert s[j] == s[..m][j] == s'[j];
    assert s[j + 1 + n] == s[..m][j + 1 + n] == s'[j + 1 + n];
    var t := s[j + 1..];
    var t' := s'[j + 1..];
    forall i | 0 <= i <= n ensures t'[i] == t[i] {
      assert t'[i] == s'[..m][j + 1 + i] == t[i];
    }
    LeadingSpacesExact(t', n);
  }

  /** The first occurrence of a pattern is unchanged by replacing text after it. */
  lemma IndexOfKeptPrefix(content: string, c: string, h: string, i: nat, cut: nat)
    requires IndexOf(content, h) == Some(i)
    requires i + |h| <= cut <= |content| && cut <= |c| && c[..cut] == content[..cut]
    ensures IndexOf(c, h) == Some(i)
  {
    assert forall k :: 0 <= k < cut ==> c[k] == content[k] by {
      forall k | 0 <= k < cut ensures c[k] == content[k] { assert c[k] == c[..cut][k]; }
    }
    forall j | 0 <= j < i ensures !OccursAt(c, h, j) {
      assert !OccursAt(content, h, j);
      assert c[j..j + |h|] == content[j..j + |h|];
    }
    assert c[i..i + |h|] == content[i..i + |h|];
    IndexOfFirst(c, h, i);
  }

  /**
   * A newline before the first boundary sees a non-space character before
   * the boundary's `[`: otherwise it would itself open a section.
   */
  lemma BoundaryBeforeBracket(after: string, j: nat)
    requires j < SectionEnd(after) < |after| && after[j] == '\n'
    ensures j + 1 + LeadingSpaces(after[j + 1..]) < BracketAfter(after, SectionEnd(after))
  {
    var e := SectionEnd(after);
    var b := BracketAfter(after, e);
    var t := after[j + 1..];
    assert OpensSection(after, e);
    assert after[b] == '[';
    assert !OpensSection(after, j);
    assert b - j - 1 < |t| && t[b - j - 1] == after[b];
  }

  /** The first section boundary is unchanged by replacing text after its `[`. */
  lemma SectionEndKeptPrefix(after: string, after': string, m: nat)
    requires SectionEnd(after) < |after|
    requires BracketAfter(after, SectionEnd(after)) < m <= |after| && m <= |after'|
    requires after[..m] == after'[..m]
    ensures SectionEnd(after') == SectionEnd(after)
  {
    var e := SectionEnd(after);
    var b := BracketAfter(after, e);
    OpensSectionLocal(after, after', e, m);
    forall j | 0 <= j < e ensures !OpensSection(after', j) {
      if after[j] == '\n' {
        BoundaryBeforeBracket(after, j);
        OpensSectionLocal(after, after', j, m);
      } else {
        assert after'[j] == after[..m][j];
      }
    }
    SectionEndFirst(after', e);
  }

  /**
   * Keys from other sections never leak in: once the section is closed by a
   * later header, replacing everything after that header's `[` leaves the
   * parse result unchanged.
   */
  lemma LaterSectionsIgnored(content: string, name: string, i: nat, cut: nat, rest: string)
    requires IndexOf(content, Header(name)) == Some(i)
    requires var after := content[i + |Header(name)|..];
      SectionEnd(after) < |after| && i + |Header(name)| + BracketAfter(after, SectionEnd(after)) < cut <= |content|
    ensures ParseTomlConnection(content[..cut] + rest, name) == ParseTomlConnection(content, name)
  {
    var c := content[..cut] + rest;
    assert c[..cut] == content[..cut];
    SectionTextKept(content, c, name, i, cut);
    ParseOfSectionText(c, content, name);
  }

  lemma ParseOfSectionText(c: string, content: string, name: string)
    requires SectionText(c, name) == SectionText(content, name)
    ensures ParseTomlConnection(c, name) == ParseTomlConnection(content, name)
  {
  }

  /** Text that agrees with `content` up to past the `[` closing the section has the same section text. */
  lemma SectionTextKept(content: string, c: string, name: string, i: nat, cut: nat)
    requires IndexOf(content, Header(name)) == Some(i)
    requires var after := content[i + |Header(name)|..];
      SectionEnd(after) < |after| && i + |Header(name)| + BracketAfter(after, SectionEnd(after)) < cut <= |content|
    requires cut <= |c| && c[..cut] == content[..cut]
    ensures SectionText(c, name) == SectionText(content, name)
  {
    var h := Header(name);
    var p := i + |h|;
    KeptBodies(content, c, p, cut);
    IndexOfKeptPrefix(content, c, h, i, cut);
    SectionTextAt(content, name, i);
    SectionTextAt(c, name, i);
  }

  lemma SectionTextAt(content: string, name: string, i: nat)
    requires IndexOf(content, Header(name)) == Some(i)
    ensures SectionText(content, name) == Some(SectionBody(content[i + |Header(name)|..]))
  {
  }

  lemma KeptBodies(content: string, c: string, p: nat, cut: nat)
    requires p <= |content| && var after := content[p..];
      SectionEnd(after) < |after| && p + BracketAfter(after, SectionEnd(after)) < cut <= |content|
    requires cut <= |c| && c[..cut] == content[..cut]
    ensures p <= |c| && SectionBody(content[p..]) == SectionBody(c[p..])
  {
    KeptSlices(content, c, cut, p);
    KeptSectionBody(content[p..], c[p..], cut - p);
  }

  lemma KeptSlices(content: string, c: string, cut: nat, p: nat)
    requires p <= cut <= |content| && cut <= |c| && c[..cut] == content[..cut]
    ensures cut - p <= |c[p..]| && content[p..][..cut - p] == c[p..][..cut - p]
  {
    assert content[p..][..cut - p] == content[..cut][p..];
    assert c[p..][..cut - p] == c[..cut][p..];
  }

  /** The section text is unchanged by replacing text after the `[` that closes it. */
  lemma KeptSectionBody(after: string, after': string, m: nat)
    requires SectionEnd(after) < |after| && BracketAfter(after, SectionEnd(after)) < m <= |after| && m <= |after'|
    requires after[..m] == after'[..m]
    ensures SectionBody(after) == SectionBody(after')
  {
    SectionEndKeptPrefix(after, after', m);
    PrefixOfPrefix(after, after', m, SectionEnd(after));
  }

  lemma PrefixOfPrefix(a: string, b: string, m: nat, e: nat)
    requires e <= m <= |a| && m <= |b| && a[..m] == b[..m]
    ensures a[..e] == b[..e]
  {
    assert a[..e] == a[..m][..e];
    assert b[..e] == b[..m][..e];
  }
}
