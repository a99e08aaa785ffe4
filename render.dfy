/**
 * What each writer in handler.go appends to its buffer, as functions of the
 * handler's state: the value renderer (writeStyledAttrValue), the style
 * resolver (attrStyle), the attribute writer (writeAttr), the derivation
 * steps (WithAttrs, WithGroup) and the line (Handle).
 */
module Render {
  import opened Wrappers
  import opened Text
  import opened Lipgloss
  import opened Slog
  import opened Foreign
  import opened Config
  import opened Attrs

  /**
   * The part of a hueHandler that its output depends on: the options, the
   * accumulated dotted group string, the group names, and the two
   * pre-rendered buffers. The writer and the mutex are left out.
   */
  datatype HState = HState(opts: Options, group: Bytes, groups: seq<Bytes>, prefix: Bytes, attrs: Bytes)

  /** What fmt's %+v prints for a nil any. */
  const NIL: Bytes := Ascii("<nil>")

  // ---------------------------------------------------------------------
  // Values: writeStyledAttrValue

  /** The formatter closure: strconv.Quote when quoting, the text itself otherwise. */
  function Quoted(lib: Lib, quote: bool, s: Bytes): Bytes {
    if quote then lib.quote(s) else s
  }

  /** What writeStyledAttrValue appends for value v. */
  function ValueText(lib: Lib, v: Value, style: Style, quote: bool): Bytes {
    match v
    case Str(s) => lib.render(style, Quoted(lib, quote, s))
    case Bool(b) => lib.render(style, FormatBool(b))
    case Int(i) => lib.render(style, FormatInt(i))
    case Uint(u) => lib.render(style, FormatInt(u))
    case Float(f) => lib.render(style, lib.formatFloat(f))
    case Time(t) => lib.render(style, Quoted(lib, quote, lib.timeString(t)))
    case Duration(d) => lib.render(style, lib.durationString(d))
    case Any(None) => lib.render(style, Quoted(lib, quote, NIL))
    case Any(Some(d)) => AnyText(lib, d, style, quote)
    case Group(_) => []
    case Valuer(_) => []
  }

  /** The KindAny type switch: TextMarshaler, then Stringer, then %+v. */
  function AnyText(lib: Lib, d: Dynamic, style: Style, quote: bool): Bytes {
    match d.marshal
    case Some(Failure(_)) => []
    case Some(Success(text)) => lib.render(style, Quoted(lib, quote, text))
    case None =>
      if d.stringer.Some? then lib.render(style, Quoted(lib, quote, d.stringer.value))
      else lib.render(style, Quoted(lib, quote, d.verbose))
  }

  // ---------------------------------------------------------------------
  // Attributes: attrStyle, writeAttrKey, writeAttr

  /**
   * attrStyle: the resolved value, the style to use and whether the value
   * supplied that style itself.
   */
  function AttrStyle(lib: Lib, opts: Options, a: Attr): (r: (Value, Style, bool))
    requires opts.styles.Some?
    ensures r.0 == lib.Resolve(a.value)
    ensures r.2 <==> StyleOf(a.value).Some?
    ensures r.1 == if r.2 then StyleOf(a.value).value else opts.styles.value.attr
  {
    var res := lib.Resolve(a.value);
    match StyleOf(a.value)
    case Some(s) => (res, s, true)
    case None => (res, opts.styles.value.attr, false)
  }

  /** writeAttrKey: "{keyPrefix}{key}=" in the given style. */
  function KeyText(lib: Lib, style: Style, keyPrefix: Bytes, key: Bytes): Bytes {
    lib.render(style, keyPrefix + key + EQUALS)
  }

  /**
   * What writeAttr appends for an attribute that is neither zero nor a
   * group: the key in the faint style, the quoted resolved value (in its own
   * style, or unstyled), one space.
   */
  function LeafText(lib: Lib, opts: Options, a: Attr, keyPrefix: Bytes): Bytes
    requires opts.styles.Some?
  {
    var r := AttrStyle(lib, opts, a);
    KeyText(lib, Faint(r.1), keyPrefix, a.key)
      + ValueText(lib, r.0, if r.2 then r.1 else Plain, true)
      + SPACE
  }

  /** The ReplaceAttr hook applied, when there is one. */
  function Replace(opts: Options, groups: seq<Bytes>, a: Attr): (r: Attr)
    requires HookShrinks(opts.replaceAttr)
    ensures Size(r) <= Size(a)
  {
    if opts.replaceAttr.Some? then opts.replaceAttr.value(groups, a) else a
  }

  /** What writeAttr appends for a, written under keyPrefix with the given group names. */
  function AttrText(lib: Lib, opts: Options, a: Attr, keyPrefix: Bytes, groups: seq<Bytes>): Bytes
    requires Configured(opts)
    decreases Size(a), 0
  {
    var r := Replace(opts, groups, a);
    if IsZero(r) then []
    else if r.value.Group? then
      if r.key != [] then AttrsText(lib, opts, r.value.attrs, keyPrefix + r.key + DOT, groups + [r.key])
      else AttrsText(lib, opts, r.value.attrs, keyPrefix, groups)
    else LeafText(lib, opts, r, keyPrefix)
  }

  /** writeAttr on each attribute in turn. */
  function AttrsText(lib: Lib, opts: Options, attrs: seq<Attr>, keyPrefix: Bytes, groups: seq<Bytes>): Bytes
    requires Configured(opts)
    decreases SizeAll(attrs), 1
  {
    if attrs == [] then []
    else AttrText(lib, opts, attrs[0], keyPrefix, groups) + AttrsText(lib, opts, attrs[1..], keyPrefix, groups)
  }

  /** Attributes are written independently and in order. */
  lemma {:induction false} AttrsTextAppend(lib: Lib, opts: Options, xs: seq<Attr>, ys: seq<Attr>, keyPrefix: Bytes, groups: seq<Bytes>)
    requires Configured(opts)
    ensures AttrsText(lib, opts, xs + ys, keyPrefix, groups)
         == AttrsText(lib, opts, xs, keyPrefix, groups) + AttrsText(lib, opts, ys, keyPrefix, groups)
    decreases |xs|
  {
    if xs == [] {
      assert xs + ys == ys;
    } else {
      assert (xs + ys)[0] == xs[0];
      assert (xs + ys)[1..] == xs[1..] + ys;
      AttrsTextAppend(lib, opts, xs[1..], ys, keyPrefix, groups);
    }
  }

  /** Writing one more attribute appends its text. */
  lemma AttrsTextStep(lib: Lib, opts: Options, attrs: seq<Attr>, i: nat, keyPrefix: Bytes, groups: seq<Bytes>)
    requires Configured(opts) && i < |attrs|
    ensures AttrsText(lib, opts, attrs[..i + 1], keyPrefix, groups)
         == AttrsText(lib, opts, attrs[..i], keyPrefix, groups) + AttrText(lib, opts, attrs[i], keyPrefix, groups)
  {
    assert attrs[..i + 1] == attrs[..i] + [attrs[i]];
    AttrsTextAppend(lib, opts, attrs[..i], [attrs[i]], keyPrefix, groups);
    assert [attrs[i]][1..] == [];
  }

  // ---------------------------------------------------------------------
  // Derivation: WithAttrs and WithGroup

  /** WithAttrs sends a to the prefix buffer. */
  function Routed(opts: Options, a: Attr): (r: bool)
    ensures r ==> opts.addPrefix && (a.value.Any? || a.value.Valuer?)
    ensures !opts.addPrefix ==> !r
  {
    IsPrefixAttr(a.value) && opts.addPrefix
  }

  /** A routed attribute in the prefix buffer: its value unstyled and unquoted, then ".". */
  function PrefixEntry(lib: Lib, a: Attr): Bytes {
    ValueText(lib, a.value, Plain, false) + DOT
  }

  /** What WithAttrs collects in preBuf. */
  function PrefixEntries(lib: Lib, opts: Options, attrs: seq<Attr>): Bytes {
    if attrs == [] then []
    else (if Routed(opts, attrs[0]) then PrefixEntry(lib, attrs[0]) else [])
         + PrefixEntries(lib, opts, attrs[1..])
  }

  /** The attributes WithAttrs hands to writeAttr, in order. */
  function Unrouted(opts: Options, attrs: seq<Attr>): (r: seq<Attr>)
    ensures forall i :: 0 <= i < |r| ==> !Routed(opts, r[i])
  {
    if attrs == [] then []
    else (if Routed(opts, attrs[0]) then [] else [attrs[0]]) + Unrouted(opts, attrs[1..])
  }

  lemma {:induction false} PrefixEntriesAppend(lib: Lib, opts: Options, xs: seq<Attr>, ys: seq<Attr>)
    ensures PrefixEntries(lib, opts, xs + ys) == PrefixEntries(lib, opts, xs) + PrefixEntries(lib, opts, ys)
    decreases |xs|
  {
    if xs == [] {
      assert xs + ys == ys;
    } else {
      assert (xs + ys)[0] == xs[0];
      assert (xs + ys)[1..] == xs[1..] + ys;
      PrefixEntriesAppend(lib, opts, xs[1..], ys);
    }
  }

  lemma {:induction false} UnroutedAppend(opts: Options, xs: seq<Attr>, ys: seq<Attr>)
    ensures Unrouted(opts, xs + ys) == Unrouted(opts, xs) + Unrouted(opts, ys)
    decreases |xs|
  {
    if xs == [] {
      assert xs + ys == ys;
    } else {
      assert (xs + ys)[0] == xs[0];
      assert (xs + ys)[1..] == xs[1..] + ys;
      UnroutedAppend(opts, xs[1..], ys);
    }
  }

  /** One more attribute extends the prefix entries or the written attributes, never both. */
  lemma RouteOneMore(lib: Lib, opts: Options, xs: seq<Attr>, a: Attr, group: Bytes, groups: seq<Bytes>)
    requires Configured(opts)
    ensures PrefixEntries(lib, opts, xs + [a])
         == PrefixEntries(lib, opts, xs) + (if Routed(opts, a) then PrefixEntry(lib, a) else [])
    ensures AttrsText(lib, opts, Unrouted(opts, xs + [a]), group, groups)
         == AttrsText(lib, opts, Unrouted(opts, xs), group, groups)
            + (if Routed(opts, a) then [] else AttrText(lib, opts, a, group, groups))
  {
    PrefixEntriesAppend(lib, opts, xs, [a]);
    UnroutedAppend(opts, xs, [a]);
    assert [a][1..] == [];
    AttrsTextAppend(lib, opts, Unrouted(opts, xs), Unrouted(opts, [a]), group, groups);
    if !Routed(opts, a) {
      assert Unrouted(opts, [a]) == [a];
      assert AttrsText(lib, opts, [a], group, groups) == AttrText(lib, opts, a, group, groups);
    }
  }

  /** The prefix buffer is empty or ends with the "." of its last entry. */
  predicate DotTerminated(p: Bytes) {
    p == [] || p[|p| - 1..] == DOT
  }

  lemma DotTerminatedAppend(p: Bytes, q: Bytes)
    requires DotTerminated(p) && DotTerminated(q)
    ensures DotTerminated(p + q)
  {
    if q != [] {
      assert (p + q)[|p + q| - 1..] == q[|q| - 1..];
    }
  }

  lemma {:induction false} PrefixEntriesDotTerminated(lib: Lib, opts: Options, attrs: seq<Attr>)
    ensures DotTerminated(PrefixEntries(lib, opts, attrs))
    decreases |attrs|
  {
    if attrs != [] {
      PrefixEntriesDotTerminated(lib, opts, attrs[1..]);
      var head := if Routed(opts, attrs[0]) then PrefixEntry(lib, attrs[0]) else [];
      assert DotTerminated(head) by {
        if head != [] {
          assert head[|head| - 1..] == DOT;
        }
      }
      DotTerminatedAppend(head, PrefixEntries(lib, opts, attrs[1..]));
    }
  }

  /** The state of h.WithAttrs(attrs), given h's. */
  function WithAttrsState(lib: Lib, st: HState, attrs: seq<Attr>): HState
    requires Configured(st.opts)
  {
    if attrs == [] then st
    else st.(prefix := st.prefix + PrefixEntries(lib, st.opts, attrs),
             attrs := st.attrs + AttrsText(lib, st.opts, Unrouted(st.opts, attrs), st.group, st.groups))
  }

  /** The state of h.WithGroup(name), given h's. */
  function WithGroupState(st: HState, name: Bytes): HState {
    st.(group := st.group + name + DOT, groups := st.groups + [name])
  }

  // ---------------------------------------------------------------------
  // The line: Handle and its segment writers

  /** writeTime. */
  function TimeText(lib: Lib, opts: Options, t: Instant): Bytes
    requires opts.styles.Some?
  {
    lib.render(opts.styles.value.time, lib.formatTime(t, opts.timeFormat)) + SPACE
  }

  /** The style writeLevel prints: the level's own, or the attribute style set to Level.String(). */
  function LevelStyle(lib: Lib, opts: Options, level: int): Style
    requires opts.styles.Some?
  {
    var styles := opts.styles.value;
    if level in styles.levels then styles.levels[level]
    else SetString(styles.attr, lib.levelString(level))
  }

  /** writeLevel. */
  function LevelText(lib: Lib, opts: Options, level: int): Bytes
    requires opts.styles.Some?
  {
    lib.show(LevelStyle(lib, opts, level)) + SPACE
  }

  const OSC8: Bytes := [27 as byte] + Ascii("]8;;")
  const ST: Bytes := [27 as byte] + Ascii("\\")

  /** hyperlink: an OSC 8 terminal hyperlink to url, showing text. */
  function Hyperlink(url: Bytes, text: Bytes): (r: Bytes)
    ensures |r| == |url| + |text| + 2 * |OSC8| + 2 * |ST|
    ensures r[..|OSC8| + |url| + |ST|] == OSC8 + url + ST
    ensures r[|r| - |OSC8| - |ST|..] == OSC8 + ST
    ensures r[|OSC8| + |url| + |ST|..|r| - |OSC8| - |ST|] == text
  {
    OSC8 + url + ST + text + OSC8 + ST
  }

  /** "<file:line>". */
  function SourceLabel(file: Bytes, line: int): Bytes {
    Ascii("<") + file + Ascii(":") + FormatInt(line) + Ascii(">")
  }

  /** The link writeSource wraps the label in; empty when there is no SourceLink. */
  function SourceLinkOf(opts: Options, src: Source): Bytes {
    if opts.sourceLink.Some? then opts.sourceLink.value(src) else []
  }

  /** writeSource: nothing when the path has no file part. */
  function SourceText(lib: Lib, opts: Options, src: Source): Bytes
    requires opts.styles.Some?
  {
    var file := SplitFile(src.file);
    if file == [] then []
    else
      var text := SourceLabel(file, src.line);
      var link := SourceLinkOf(opts, src);
      lib.render(opts.styles.value.source, if link == [] then text else Hyperlink(link, text)) + SPACE
  }

  /** writePrefix: the prefix buffer with its last byte replaced by a space. */
  function PrefixText(lib: Lib, st: HState): Bytes
    requires st.opts.styles.Some?
  {
    if |st.prefix| == 0 then []
    else lib.render(st.opts.styles.value.prefix, st.prefix[..|st.prefix| - 1] + SPACE)
  }

  /** writeAttrs: the pre-rendered attributes, then the record's own. */
  function AttrsSegment(lib: Lib, st: HState, rec: Record): Bytes
    requires Configured(st.opts)
  {
    st.attrs + AttrsText(lib, st.opts, rec.attrs, st.group, st.groups)
  }

  /** The line Handle assembles for rec. */
  function Line(lib: Lib, st: HState, rec: Record): Bytes
    requires Configured(st.opts)
  {
    var opts := st.opts;
    (if !IsZeroTime(rec.time) then TimeText(lib, opts, rec.time) else [])
      + LevelText(lib, opts, rec.level)
      + (if opts.addSource then SourceText(lib, opts, rec.source) else [])
      + (if opts.addPrefix then PrefixText(lib, st) else [])
      + rec.message + SPACE
      + AttrsSegment(lib, st, rec)
      + NEWLINE
  }
}
