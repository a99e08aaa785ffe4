/**
 * What the handler promises, proved about the rendering functions: value
 * formatting, group flattening, zero-attribute tombstones, associativity of
 * attachment, prefix collection, style precedence and the assembled line.
 */
module Properties {
  import opened Wrappers
  import opened Text
  import opened Lipgloss
  import opened Slog
  import opened Foreign
  import opened Config
  import opened Attrs
  import opened Render
  import opened Handler

  /** Rendering through a lipgloss that adds no escape codes. */
  ghost predicate RendersVerbatim(lib: Lib) {
    forall s, t :: lib.render(s, t) == t
  }

  // ---------------------------------------------------------------------
  // Enabled

  /** With no Leveler the minimum is Info, and Info itself is enabled. */
  lemma DefaultMinimumIsInfo(h: Handler)
    requires h.opts.level.None?
    ensures h.Enabled(LevelInfo) && h.Enabled(LevelWarn) && h.Enabled(LevelError)
    ensures !h.Enabled(LevelDebug) && !h.Enabled(LevelInfo - 1)
    ensures forall l :: h.Enabled(l) <==> l >= LevelInfo
  {
  }

  /** Enabled is a threshold: once a level is enabled so is every higher one. */
  lemma EnabledIsMonotone(h: Handler, low: int, high: int)
    requires low <= high && h.Enabled(low)
    ensures h.Enabled(high)
  {
  }

  /**
   * A level with an entry in Levels is shown in that style whatever the
   * attribute style; any other level is shown as the attribute style set
   * to Level.String(), whatever the Levels map holds for other levels.
   */
  lemma LevelStyleChoice(lib: Lib, opts: Options, attrStyle: Style, levels: map<int, Style>, level: int)
    requires opts.styles.Some?
    ensures var opts2 := opts.(styles := Some(opts.styles.value.(attr := attrStyle)));
      level in opts.styles.value.levels ==>
        LevelText(lib, opts, level) == LevelText(lib, opts2, level)
        == lib.show(opts.styles.value.levels[level]) + SPACE
    ensures var opts3 := opts.(styles := Some(opts.styles.value.(levels := levels)));
      level !in opts.styles.value.levels && level !in levels ==>
        LevelText(lib, opts, level) == LevelText(lib, opts3, level)
        == lib.show(SetString(opts.styles.value.attr, lib.levelString(level))) + SPACE
  {
  }

  // ---------------------------------------------------------------------
  // Values

  /**
   * The text a value stands for before quoting and styling (an independent
   * reading of writeStyledAttrValue); None when nothing is written.
   */
  function RawText(lib: Lib, v: Value): Option<Bytes> {
    match v
    case Str(s) => Some(s)
    case Bool(b) => Some(FormatBool(b))
    case Int(i) => Some(FormatInt(i))
    case Uint(u) => Some(FormatInt(u))
    case Float(f) => Some(lib.formatFloat(f))
    case Time(t) => Some(lib.timeString(t))
    case Duration(d) => Some(lib.durationString(d))
    case Any(None) => Some(NIL)
    case Any(Some(d)) =>
      if d.marshal.Some? then (if d.marshal.value.Success? then Some(d.marshal.value.value) else None)
      else if d.stringer.Some? then d.stringer
      else Some(d.verbose)
    case Group(_) => None
    case Valuer(_) => None
  }

  /** The kinds the quote flag applies to. */
  predicate Quotable(v: Value) { v.Str? || v.Time? || v.Any? }

  /**
   * A value is written as its raw text, quoted only when quoting is asked
   * for and the kind is String, Time or Any, in the given style; Bool,
   * integers, Float and Duration are never quoted; a failed MarshalText, a
   * group and an unresolved LogValuer write nothing.
   */
  lemma ValueTextFromRawText(lib: Lib, v: Value, style: Style, quote: bool)
    ensures ValueText(lib, v, style, quote)
         == match RawText(lib, v)
            case None => []
            case Some(t) => lib.render(style, if quote && Quotable(v) then lib.quote(t) else t)
  {
  }

  /** Integers are written in base 10 and can be read back. */
  lemma IntValueRoundTrip(lib: Lib, i: Int64, style: Style, quote: bool)
    requires RendersVerbatim(lib)
    ensures ParseInt(ValueText(lib, Int(i), style, quote)) == Some(i)
  {
    FormatIntRoundTrip(i);
  }

  lemma UintValueRoundTrip(lib: Lib, u: Uint64, style: Style, quote: bool)
    requires RendersVerbatim(lib)
    ensures ParseInt(ValueText(lib, Uint(u), style, quote)) == Some(u as int)
  {
    FormatIntRoundTrip(u);
  }

  // ---------------------------------------------------------------------
  // Attributes

  /** The attributes that are not the zero Attr. */
  function NonZero(attrs: seq<Attr>): (r: seq<Attr>)
    ensures forall i :: 0 <= i < |r| ==> !IsZero(r[i])
  {
    if attrs == [] then []
    else (if IsZero(attrs[0]) then [] else [attrs[0]]) + NonZero(attrs[1..])
  }

  /** A hook that returns the zero Attr deletes the attribute: a tombstone. */
  lemma TombstoneWritesNothing(lib: Lib, opts: Options, a: Attr, keyPrefix: Bytes, groups: seq<Bytes>)
    requires Configured(opts) && IsZero(Replace(opts, groups, a))
    ensures AttrText(lib, opts, a, keyPrefix, groups) == []
  {
  }

  /**
   * Without a rewriting hook, zero attributes leave no trace, wherever they
   * stand in the list.
   */
  lemma {:induction false} ZeroAttrsLeaveNoTrace(lib: Lib, opts: Options, attrs: seq<Attr>, keyPrefix: Bytes, groups: seq<Bytes>)
    requires Configured(opts) && IdentityHook(opts.replaceAttr)
    ensures AttrsText(lib, opts, attrs, keyPrefix, groups) == AttrsText(lib, opts, NonZero(attrs), keyPrefix, groups)
    decreases |attrs|
  {
    if attrs != [] {
      ZeroAttrsLeaveNoTrace(lib, opts, attrs[1..], keyPrefix, groups);
      var head := if IsZero(attrs[0]) then [] else [attrs[0]];
      AttrsTextAppend(lib, opts, head, NonZero(attrs[1..]), keyPrefix, groups);
      assert Replace(opts, groups, attrs[0]) == attrs[0];
      if head != [] {
        assert AttrsText(lib, opts, head, keyPrefix, groups) == AttrText(lib, opts, attrs[0], keyPrefix, groups) by {
          assert head[1..] == [];
        }
      }
    }
  }

  /**
   * Whatever the hook returns, a group with a key writes its children under
   * "key.", and records the key in the group names.
   */
  lemma GroupFlattens(lib: Lib, opts: Options, a: Attr, keyPrefix: Bytes, groups: seq<Bytes>)
    requires Configured(opts)
    requires var r := Replace(opts, groups, a); r.value.Group? && r.key != []
    ensures var r := Replace(opts, groups, a);
      AttrText(lib, opts, a, keyPrefix, groups)
        == AttrsText(lib, opts, r.value.attrs, keyPrefix + r.key + DOT, groups + [r.key])
  {
  }

  /** Whatever the hook returns, a group with an empty key is transparent: its children are written inline. */
  lemma EmptyKeyGroupIsTransparent(lib: Lib, opts: Options, a: Attr, keyPrefix: Bytes, groups: seq<Bytes>)
    requires Configured(opts)
    requires var r := Replace(opts, groups, a); r.value.Group? && r.key == []
    ensures var r := Replace(opts, groups, a);
      AttrText(lib, opts, a, keyPrefix, groups) == AttrsText(lib, opts, r.value.attrs, keyPrefix, groups)
  {
  }

  /**
   * Whatever the hook returns, a leaf that is neither zero nor a group is
   * written as "{keyPrefix}{key}=" in the faint style, its quoted resolved
   * value, and a space.
   */
  lemma LeafLayout(lib: Lib, opts: Options, a: Attr, keyPrefix: Bytes, groups: seq<Bytes>)
    requires Configured(opts)
    requires var r := Replace(opts, groups, a); !IsZero(r) && !r.value.Group?
    ensures var r := Replace(opts, groups, a);
      var s := AttrStyle(lib, opts, r);
      AttrText(lib, opts, a, keyPrefix, groups)
        == lib.render(Faint(s.1), keyPrefix + r.key + EQUALS)
           + ValueText(lib, lib.Resolve(r.value), if s.2 then s.1 else Plain, true)
           + SPACE
  {
  }

  /**
   * Nesting is prefix-stable: WithGroup(g1).WithGroup(g2) then k=v writes
   * the same line as WithGroup(g1) then {g2: {k=v}}.
   */
  lemma NestedGroupMatchesWithGroup(lib: Lib, st: HState, g1: Bytes, g2: Bytes, a: Attr, rec: Record)
    requires Configured(st.opts) && IdentityHook(st.opts.replaceAttr) && g2 != []
    ensures Line(lib, WithGroupState(WithGroupState(st, g1), g2), rec.(attrs := [a]))
         == Line(lib, WithGroupState(st, g1), rec.(attrs := [Attr(g2, Group([a]))]))
  {
    var s1 := WithGroupState(st, g1);
    var s2 := WithGroupState(s1, g2);
    assert Replace(st.opts, s1.groups, Attr(g2, Group([a]))) == Attr(g2, Group([a]));
    GroupFlattens(lib, st.opts, Attr(g2, Group([a])), s1.group, s1.groups);
    assert [Attr(g2, Group([a]))][1..] == [] && [a][1..] == [];
    assert AttrsText(lib, st.opts, [a], s2.group, s2.groups)
        == AttrsText(lib, st.opts, [Attr(g2, Group([a]))], s1.group, s1.groups);
  }

  /**
   * WithGroup("") is not a no-op: it still appends "." to the group string
   * and an empty name to the group names.
   */
  lemma EmptyGroupNameStillNests(st: HState)
    ensures WithGroupState(st, []).group == st.group + DOT
    ensures WithGroupState(st, []).groups == st.groups + [[]]
    ensures WithGroupState(st, []) != st
  {
    assert |WithGroupState(st, []).group| == |st.group| + 1;
  }

  /** Group prefixes are not retroactive: WithGroup carries both buffers over. */
  lemma WithGroupKeepsBuffers(st: HState, name: Bytes)
    ensures WithGroupState(st, name).prefix == st.prefix
    ensures WithGroupState(st, name).attrs == st.attrs
    ensures WithGroupState(st, name).opts == st.opts
  {
  }

  // ---------------------------------------------------------------------
  // WithAttrs

  /** Attachment is associative: attaching A then B pre-renders what attaching A ++ B does. */
  lemma WithAttrsAssociative(lib: Lib, st: HState, xs: seq<Attr>, ys: seq<Attr>)
    requires Configured(st.opts)
    ensures WithAttrsState(lib, WithAttrsState(lib, st, xs), ys) == WithAttrsState(lib, st, xs + ys)
  {
    if xs == [] {
      assert xs + ys == ys;
    } else if ys == [] {
      assert xs + ys == xs;
    } else {
      var opts := st.opts;
      var st1 := WithAttrsState(lib, st, xs);
      PrefixEntriesAppend(lib, opts, xs, ys);
      UnroutedAppend(opts, xs, ys);
      AttrsTextAppend(lib, opts, Unrouted(opts, xs), Unrouted(opts, ys), st.group, st.groups);
      var left := WithAttrsState(lib, st1, ys);
      var right := WithAttrsState(lib, st, xs + ys);
      assert left.prefix == right.prefix;
      assert left.attrs == right.attrs;
      assert left.opts == right.opts && left.group == right.group && left.groups == right.groups;
    }
  }

  /** Attributes WithAttrs does not route to the prefix are exactly the list itself. */
  lemma {:induction false} UnroutedWhenNoneRouted(lib: Lib, opts: Options, attrs: seq<Attr>)
    requires forall i :: 0 <= i < |attrs| ==> !Routed(opts, attrs[i])
    ensures Unrouted(opts, attrs) == attrs
    ensures PrefixEntries(lib, opts, attrs) == []
    decreases |attrs|
  {
    if attrs != [] {
      UnroutedWhenNoneRouted(lib, opts, attrs[1..]);
    }
  }

  /**
   * Pre-rendering is invisible: a handler that attached A (none of them a
   * prefix attribute) writes the same line as its parent would for a record
   * carrying A before its own attributes.
   */
  lemma PrerenderingMatchesPerEvent(lib: Lib, st: HState, attrs: seq<Attr>, rec: Record)
    requires Configured(st.opts)
    requires forall i :: 0 <= i < |attrs| ==> !Routed(st.opts, attrs[i])
    ensures Line(lib, WithAttrsState(lib, st, attrs), rec) == Line(lib, st, rec.(attrs := attrs + rec.attrs))
  {
    UnroutedWhenNoneRouted(lib, st.opts, attrs);
    AttrsTextAppend(lib, st.opts, attrs, rec.attrs, st.group, st.groups);
    var st2 := WithAttrsState(lib, st, attrs);
    assert st2.prefix == st.prefix;
    assert AttrsSegment(lib, st2, rec) == AttrsSegment(lib, st, rec.(attrs := attrs + rec.attrs));
  }

  /** With AddPrefix off nothing is routed: every attribute is pre-rendered as key=value. */
  lemma {:induction false} NoPrefixWithoutAddPrefix(lib: Lib, st: HState, attrs: seq<Attr>)
    requires Configured(st.opts) && !st.opts.addPrefix
    ensures WithAttrsState(lib, st, attrs).prefix == st.prefix
    ensures WithAttrsState(lib, st, attrs).attrs == st.attrs + AttrsText(lib, st.opts, attrs, st.group, st.groups)
  {
    UnroutedWhenNoneRouted(lib, st.opts, attrs);
  }

  /**
   * Service routes to the prefix buffer, unstyled and unquoted, followed by
   * "."; the attribute before it still goes to the key=value buffer.
   */
  lemma ServiceGoesToPrefix(lib: Lib, pkg: Package, st: HState, a: Attr, name: Bytes)
    requires Configured(st.opts) && st.opts.addPrefix && !Routed(st.opts, a)
    ensures var st2 := WithAttrsState(lib, st, [a, Service(pkg, name)]);
      && st2.prefix == st.prefix + lib.render(Plain, name) + DOT
      && st2.attrs == st.attrs + AttrText(lib, st.opts, a, st.group, st.groups)
  {
    var s := Service(pkg, name);
    assert Routed(st.opts, s);
    assert PrefixEntry(lib, s) == lib.render(Plain, name) + DOT;
    assert PrefixEntries(lib, st.opts, [s]) == PrefixEntry(lib, s) by { assert [s][1..] == []; }
    assert PrefixEntries(lib, st.opts, [a, s]) == PrefixEntries(lib, st.opts, [s]) by { assert [a, s][1..] == [s]; }
    assert Unrouted(st.opts, [s]) == [] by { assert [s][1..] == []; }
    assert Unrouted(st.opts, [a, s]) == [a] by { assert [a, s][1..] == [s]; }
    assert AttrsText(lib, st.opts, [a], st.group, st.groups) == AttrText(lib, st.opts, a, st.group, st.groups) by {
      assert [a][1..] == [];
    }
  }

  /** Every prefix attribute is collected, in order, not only the first. */
  lemma EveryPrefixAttrCollected(lib: Lib, pkg: Package, st: HState, x: Bytes, y: Bytes)
    requires Configured(st.opts) && st.opts.addPrefix
    ensures var st2 := WithAttrsState(lib, st, [Service(pkg, x), Service(pkg, y)]);
      && st2.prefix == st.prefix + lib.render(Plain, x) + DOT + lib.render(Plain, y) + DOT
      && st2.attrs == st.attrs
  {
    var sx, sy := Service(pkg, x), Service(pkg, y);
    assert Routed(st.opts, sx) && Routed(st.opts, sy);
    assert PrefixEntry(lib, sx) == lib.render(Plain, x) + DOT;
    assert PrefixEntry(lib, sy) == lib.render(Plain, y) + DOT;
    assert PrefixEntries(lib, st.opts, [sy]) == PrefixEntry(lib, sy) by { assert [sy][1..] == []; }
    assert PrefixEntries(lib, st.opts, [sx, sy]) == PrefixEntry(lib, sx) + PrefixEntries(lib, st.opts, [sy]) by {
      assert [sx, sy][1..] == [sy];
    }
    assert Unrouted(st.opts, [sy]) == [] by { assert [sy][1..] == []; }
    assert Unrouted(st.opts, [sx, sy]) == [] by { assert [sx, sy][1..] == [sy]; }
  }

  /** Routing looks at whether the value implements PrefixAttr, not at what Prefix() returns. */
  lemma PrefixResultIgnored(opts: Options, key: Bytes, d: Dynamic)
    requires opts.addPrefix && d.prefix == Some(false)
    ensures Routed(opts, Attr(key, Any(Some(d))))
  {
  }

  /** writePrefix turns the final "." of the prefix buffer into a space. */
  lemma PrefixTextReplacesFinalDot(lib: Lib, st: HState)
    requires st.opts.styles.Some? && DotTerminated(st.prefix) && st.prefix != []
    ensures var body := st.prefix[..|st.prefix| - 1];
      && st.prefix == body + DOT
      && PrefixText(lib, st) == lib.render(st.opts.styles.value.prefix, body + SPACE)
  {
    var p := st.prefix;
    assert p == p[..|p| - 1] + p[|p| - 1..];
  }

  /** A service prefix is written as "svc ", with no colon. */
  lemma ServicePrefixText(lib: Lib, pkg: Package, st: HState, name: Bytes)
    requires Configured(st.opts) && st.opts.addPrefix && st.prefix == []
    requires RendersVerbatim(lib)
    ensures PrefixText(lib, WithAttrsState(lib, st, [Service(pkg, name)])) == name + SPACE
  {
    var s := Service(pkg, name);
    assert Routed(st.opts, s);
    assert PrefixEntries(lib, st.opts, [s]) == PrefixEntry(lib, s) by { assert [s][1..] == []; }
    assert PrefixEntry(lib, s) == name + DOT;
    var st2 := WithAttrsState(lib, st, [s]);
    assert st2.prefix == name + DOT;
    assert st2.prefix[..|st2.prefix| - 1] == name;
  }

  // ---------------------------------------------------------------------
  // Err and styles

  /**
   * Err(e) is written as err=<quoted message> in the error style, whatever
   * attribute style the handler is configured with.
   */
  lemma ErrUsesErrorStyle(lib: Lib, pkg: Package, opts: Options, message: Bytes, keyPrefix: Bytes, groups: seq<Bytes>)
    requires Configured(opts) && IdentityHook(opts.replaceAttr)
    ensures AttrText(lib, opts, Err(pkg, Some(message)), keyPrefix, groups)
         == lib.render(Faint(pkg.errorAttrStyle), keyPrefix + ErrKey + EQUALS)
            + lib.render(pkg.errorAttrStyle, lib.quote(message))
            + SPACE
  {
    var e := Err(pkg, Some(message));
    assert Replace(opts, groups, e) == e;
  }

  /** Err(nil) has no style of its own: it is written "<nil>" with the key in the attribute style. */
  lemma ErrNilUsesAttrStyle(lib: Lib, pkg: Package, opts: Options, keyPrefix: Bytes, groups: seq<Bytes>)
    requires Configured(opts) && IdentityHook(opts.replaceAttr)
    ensures AttrText(lib, opts, Err(pkg, None), keyPrefix, groups)
         == lib.render(Faint(opts.styles.value.attr), keyPrefix + ErrKey + EQUALS)
            + lib.render(Plain, lib.quote(NIL))
            + SPACE
  {
    var e := Err(pkg, None);
    assert Replace(opts, groups, e) == e;
  }

  /**
   * Per-event attributes are never routed: a Service attribute on the record
   * itself is written service="name", quoted, in the service style.
   */
  lemma RecordServiceIsKeyValue(lib: Lib, pkg: Package, opts: Options, name: Bytes, keyPrefix: Bytes, groups: seq<Bytes>)
    requires Configured(opts) && IdentityHook(opts.replaceAttr)
    ensures AttrText(lib, opts, Service(pkg, name), keyPrefix, groups)
         == lib.render(Faint(pkg.serviceAttrStyle), keyPrefix + ServiceKey + EQUALS)
            + lib.render(pkg.serviceAttrStyle, lib.quote(name))
            + SPACE
  {
    var a := Service(pkg, name);
    assert Replace(opts, groups, a) == a;
  }

  /** A value with its own style is written the same under any configured attribute style. */
  lemma OwnStyleWins(lib: Lib, opts: Options, attrStyle: Style, a: Attr, keyPrefix: Bytes)
    requires opts.styles.Some? && StyleOf(a.value).Some?
    ensures var opts2 := opts.(styles := Some(opts.styles.value.(attr := attrStyle)));
      LeafText(lib, opts, a, keyPrefix) == LeafText(lib, opts2, a, keyPrefix)
  {
  }

  // ---------------------------------------------------------------------
  // Source

  /** The label of a hyperlink sits between the OSC 8 opener with its URL and the OSC 8 closer. */
  lemma HyperlinkShowsText(url: Bytes, text: Bytes)
    ensures var h := Hyperlink(url, text);
      && var start := |OSC8| + |url| + |ST|;
      && |h| == start + |text| + |OSC8| + |ST|
      && h[..start] == OSC8 + url + ST
      && h[start..start + |text|] == text
      && h[start + |text|..] == OSC8 + ST
  {
  }

  /**
   * The source segment shows the file part of the path (no directory) and
   * the line, hyperlinked when SourceLink gives a link; an empty file part
   * writes nothing.
   */
  lemma SourceShowsFileAndLine(lib: Lib, opts: Options, src: Source)
    requires opts.styles.Some?
    ensures var file := SplitFile(src.file);
      var text := SourceLabel(file, src.line);
      var link := SourceLinkOf(opts, src);
      && (file == [] ==> SourceText(lib, opts, src) == [])
      && (file != [] ==>
            && SLASH !in file && |file| <= |src.file| && src.file[|src.file| - |file|..] == file
            && SourceText(lib, opts, src)
               == lib.render(opts.styles.value.source, if link == [] then text else Hyperlink(link, text)) + SPACE)
  {
    SplitFileSpec(src.file);
  }

  // ---------------------------------------------------------------------
  // The line

  /** What Handle writes after the time segment. */
  function Body(lib: Lib, st: HState, rec: Record): Bytes
    requires Configured(st.opts)
  {
    LevelText(lib, st.opts, rec.level)
      + (if st.opts.addSource then SourceText(lib, st.opts, rec.source) else [])
      + (if st.opts.addPrefix then PrefixText(lib, st) else [])
      + rec.message + SPACE
      + AttrsSegment(lib, st, rec)
      + NEWLINE
  }

  /** A line is its time segment (for a non-zero time) followed by its body. */
  lemma LineIsTimeThenBody(lib: Lib, st: HState, rec: Record)
    requires Configured(st.opts)
    ensures Line(lib, st, rec)
         == (if IsZeroTime(rec.time) then [] else TimeText(lib, st.opts, rec.time)) + Body(lib, st, rec)
  {
    var opts := st.opts;
    var t := if !IsZeroTime(rec.time) then TimeText(lib, opts, rec.time) else [];
    LeadingSegment(t, LevelText(lib, opts, rec.level),
                   if opts.addSource then SourceText(lib, opts, rec.source) else [],
                   if opts.addPrefix then PrefixText(lib, st) else [],
                   rec.message, AttrsSegment(lib, st, rec));
  }

  lemma LeadingSegment(t: Bytes, l: Bytes, src: Bytes, pre: Bytes, m: Bytes, a: Bytes)
    ensures t + l + src + pre + m + SPACE + a + NEWLINE == t + (l + src + pre + m + SPACE + a + NEWLINE)
  {
  }

  /**
   * The time segment leads the line, and only for a non-zero time: the rest
   * of the line is what the record writes with its time zeroed.
   */
  lemma TimeSegment(lib: Lib, st: HState, rec: Record)
    requires Configured(st.opts)
    ensures Line(lib, st, rec)
         == (if IsZeroTime(rec.time) then [] else TimeText(lib, st.opts, rec.time))
            + Line(lib, st, rec.(time := ZeroTime))
  {
    var z := rec.(time := ZeroTime);
    LineIsTimeThenBody(lib, st, rec);
    LineIsTimeThenBody(lib, st, z);
    assert AttrsSegment(lib, st, z) == AttrsSegment(lib, st, rec);
    assert Body(lib, st, z) == Body(lib, st, rec);
  }

  /**
   * A record with a zero time, on a handler without AddSource and AddPrefix,
   * is written as level, message, attributes and a newline.
   */
  lemma BareLine(lib: Lib, st: HState, rec: Record)
    requires Configured(st.opts) && IsZeroTime(rec.time) && !st.opts.addSource && !st.opts.addPrefix
    ensures Line(lib, st, rec) == LevelText(lib, st.opts, rec.level) + rec.message + SPACE + AttrsSegment(lib, st, rec) + NEWLINE
  {
    assert [] + LevelText(lib, st.opts, rec.level) + [] + [] == LevelText(lib, st.opts, rec.level);
  }

  /**
   * New with {Level: Info, TimeFormat: "", AddPrefix: false} writes
   * "INF boot port=8080 \n" for a zero-time Info record "boot" carrying
   * port=8080, given a level style for Info that shows as "INF": every
   * attribute is followed by a space, the last one too.
   */
  lemma BootLine(lib: Lib, pkg: Package, src: Source, loc: nat)
    requires RendersVerbatim(lib)
    requires LevelInfo in pkg.defaultStyles.levels && lib.show(pkg.defaultStyles.levels[LevelInfo]) == Ascii("INF")
    ensures var opts := NewOptions(pkg, Some(Options(Some(LevelInfo), [], false, false, None, None, None)));
      Line(lib, HState(opts, [], [], [], []),
           Record(Instant(0, 0, loc), LevelInfo, Ascii("boot"), src, [Attr(Ascii("port"), Int(8080))]))
      == Ascii("INF boot port=8080 \n")
  {
    var opts := NewOptions(pkg, Some(Options(Some(LevelInfo), [], false, false, None, None, None)));
    assert opts == Options(Some(LevelInfo), [], false, false, None, Some(pkg.defaultStyles), None);
    BootLineOf(lib, HState(opts, [], [], [], []),
               Record(Instant(0, 0, loc), LevelInfo, Ascii("boot"), src, [Attr(Ascii("port"), Int(8080))]));
  }

  lemma BootLineOf(lib: Lib, st: HState, rec: Record)
    requires RendersVerbatim(lib) && Configured(st.opts) && st.opts.replaceAttr.None?
    requires !st.opts.addSource && !st.opts.addPrefix
    requires st.group == [] && st.groups == [] && st.attrs == []
    requires LevelInfo in st.opts.styles.value.levels && lib.show(st.opts.styles.value.levels[LevelInfo]) == Ascii("INF")
    requires rec.time.sec == 0 && rec.time.nsec == 0 && rec.level == LevelInfo && rec.message == Ascii("boot")
    requires rec.attrs == [Attr(Ascii("port"), Int(8080))]
    ensures Line(lib, st, rec) == Ascii("INF boot port=8080 \n")
  {
    BootSegment(lib, st, rec);
    BootLevel(lib, st.opts);
    BareLine(lib, st, rec);
    BootBytes(LevelText(lib, st.opts, rec.level), rec.message, AttrsSegment(lib, st, rec));
  }

  lemma BootSegment(lib: Lib, st: HState, rec: Record)
    requires RendersVerbatim(lib) && Configured(st.opts) && st.opts.replaceAttr.None?
    requires st.group == [] && st.groups == [] && st.attrs == []
    requires rec.attrs == [Attr(Ascii("port"), Int(8080))]
    ensures AttrsSegment(lib, st, rec) == Ascii("port=8080 ")
  {
    BootAttrs(lib, st.opts);
  }

  lemma BootLevel(lib: Lib, opts: Options)
    requires opts.styles.Some? && LevelInfo in opts.styles.value.levels
    requires lib.show(opts.styles.value.levels[LevelInfo]) == Ascii("INF")
    ensures LevelText(lib, opts, LevelInfo) == Ascii("INF") + SPACE
  {
  }

  lemma BootAttrs(lib: Lib, opts: Options)
    requires RendersVerbatim(lib) && Configured(opts) && opts.replaceAttr.None?
    ensures AttrsText(lib, opts, [Attr(Ascii("port"), Int(8080))], [], []) == Ascii("port=8080 ")
  {
    var a := Attr(Ascii("port"), Int(8080));
    BootLeaf(lib, opts);
    assert AttrText(lib, opts, a, [], []) == LeafText(lib, opts, a, []);
    assert AttrsText(lib, opts, [a], [], []) == AttrText(lib, opts, a, [], []) by { assert [a][1..] == []; }
  }

  lemma BootLeaf(lib: Lib, opts: Options)
    requires RendersVerbatim(lib) && opts.styles.Some?
    ensures LeafText(lib, opts, Attr(Ascii("port"), Int(8080)), []) == Ascii("port=8080 ")
  {
    var a := Attr(Ascii("port"), Int(8080));
    var r := AttrStyle(lib, opts, a);
    BootKey(lib, Faint(r.1));
    BootValue(lib, if r.2 then r.1 else Plain);
    AsciiAppend("port=", "8080");
    AsciiAppend("port=8080", " ");
  }

  lemma BootKey(lib: Lib, style: Style)
    requires RendersVerbatim(lib)
    ensures KeyText(lib, style, [], Ascii("port")) == Ascii("port=")
  {
    AsciiAppend("port", "=");
    assert [] + Ascii("port") == Ascii("port");
  }

  lemma BootValue(lib: Lib, style: Style)
    requires RendersVerbatim(lib)
    ensures ValueText(lib, Int(8080), style, true) == Ascii("8080")
  {
    Digits8080();
  }

  lemma BootBytes(level: Bytes, message: Bytes, attrs: Bytes)
    requires level == Ascii("INF") + SPACE && message == Ascii("boot") && attrs == Ascii("port=8080 ")
    ensures level + message + SPACE + attrs + NEWLINE == Ascii("INF boot port=8080 \n")
  {
  }

  lemma Digits8080()
    ensures FormatInt(8080) == Ascii("8080")
  {
    assert Digits(8) == [56];
    assert Digits(80) == [56, 48];
    assert Digits(808) == [56, 48, 56];
  }
}
