/**
 * hueHandler: the options, the accumulated groups and the two pre-rendered
 * buffers; derivation (WithGroup, WithAttrs) and line assembly (Handle),
 * each proved against the functions of Render.
 */
module Handler {
  import opened Wrappers
  import opened Text
  import opened Lipgloss
  import opened Slog
  import opened Foreign
  import opened Config
  import opened Attrs
  import opened Buffers
  import opened Render

  class Handler {
    /** The library code every writer calls (not a field of hueHandler). */
    const lib: Lib
    var opts: Options
    var group: Bytes
    var groups: seq<Bytes>
    var prefix: Buffer
    var attrs: Buffer

    ghost predicate Valid()
      reads this, prefix
    {
      prefix != attrs && Configured(opts) && DotTerminated(prefix.bytes)
    }

    ghost function State(): HState
      reads this, prefix, attrs
    {
      HState(opts, group, groups, prefix.bytes, attrs.bytes)
    }

    /** New, for a nil options pointer (None) or the given options. */
    constructor New(lib: Lib, pkg: Package, options: Option<Options>)
      requires options.Some? ==> HookShrinks(options.value.replaceAttr)
      ensures Valid() && fresh(prefix) && fresh(attrs)
      ensures this.lib == lib && State() == HState(NewOptions(pkg, options), [], [], [], [])
    {
      this.lib := lib;
      opts := NewOptions(pkg, options);
      group, groups := [], [];
      prefix := new Buffer();
      attrs := new Buffer();
    }

    /** clone: the same options and groups, and buffers of its own. */
    constructor Clone(h: Handler)
      requires h.Valid()
      ensures Valid() && fresh(prefix) && fresh(attrs)
      ensures lib == h.lib && State() == h.State()
    {
      lib := h.lib;
      opts := h.opts;
      group, groups := h.group, h.groups;
      prefix := new Buffer.Of(h.prefix.bytes);
      attrs := new Buffer.Of(h.attrs.bytes);
    }

    function MinLevel(): int
      reads this
    {
      if opts.level.Some? then opts.level.value else DefaultLogLevel
    }

    function Enabled(level: int): (r: bool)
      reads this
      ensures r <==> level >= (if opts.level.Some? then opts.level.value else DefaultLogLevel)
    {
      level >= MinLevel()
    }

    method WithGroup(name: Bytes) returns (h2: Handler)
      requires Valid()
      ensures fresh(h2) && fresh(h2.prefix) && fresh(h2.attrs)
      ensures h2.Valid() && h2.lib == lib
      ensures h2.State() == WithGroupState(State(), name)
      ensures unchanged(this, prefix, attrs)
    {
      h2 := new Handler.Clone(this);
      h2.group := h2.group + name + DOT;
      h2.groups := h2.groups + [name];
    }

    method WithAttrs(attrs: seq<Attr>) returns (h2: Handler)
      requires Valid()
      ensures |attrs| == 0 ==> h2 == this
      ensures |attrs| > 0 ==> fresh(h2) && fresh(h2.prefix) && fresh(h2.attrs)
      ensures h2.Valid() && h2.lib == lib
      ensures h2.State() == WithAttrsState(lib, State(), attrs)
      ensures unchanged(this, this.prefix, this.attrs)
    {
      if |attrs| == 0 {
        return this;
      }
      h2 := new Handler.Clone(this);
      var preBuf, attrBuf := SplitAttrs(attrs);
      ghost var target := WithAttrsState(lib, State(), attrs);
      assert target.prefix == h2.prefix.bytes + preBuf.bytes;
      assert target.attrs == h2.attrs.bytes + attrBuf.bytes;
      PrefixEntriesDotTerminated(lib, opts, attrs);
      DotTerminatedAppend(h2.prefix.bytes, preBuf.bytes);
      var _, _ := h2.prefix.Write(preBuf.bytes);
      var _, _ := h2.attrs.Write(attrBuf.bytes);
      assert h2.State() == target;
    }

    /**
     * The loop of WithAttrs: prefix attributes (when AddPrefix is set) go to
     * preBuf, the others through writeAttr to attrBuf, in order.
     */
    method SplitAttrs(attrs: seq<Attr>) returns (preBuf: Buffer, attrBuf: Buffer)
      requires Configured(opts)
      ensures fresh(preBuf) && fresh(attrBuf) && preBuf != attrBuf
      ensures preBuf.bytes == PrefixEntries(lib, opts, attrs)
      ensures attrBuf.bytes == AttrsText(lib, opts, Unrouted(opts, attrs), group, groups)
    {
      preBuf := new Buffer();
      attrBuf := new Buffer();
      for i := 0 to |attrs|
        modifies preBuf, attrBuf
        invariant preBuf.bytes == PrefixEntries(lib, opts, attrs[..i])
        invariant attrBuf.bytes == AttrsText(lib, opts, Unrouted(opts, attrs[..i]), group, groups)
      {
        var a := attrs[i];
        if IsPrefixAttr(a.value) && opts.addPrefix {
          WriteStyledAttrValue(preBuf, a, Plain, false);
          var _, _ := preBuf.WriteString(DOT);
        } else {
          WriteAttr(attrBuf, a, group, groups);
        }
        assert attrs[..i + 1] == attrs[..i] + [a];
        RouteOneMore(lib, opts, attrs[..i], a, group, groups);
      }
      assert attrs[..|attrs|] == attrs;
    }

    /** Handle up to the write: the line it hands to the writer. */
    method Handle(rec: Record) returns (line: Bytes)
      requires Valid()
      ensures line == Line(lib, State(), rec)
    {
      ghost var st := State();
      var buf := new Buffer();
      if !IsZeroTime(rec.time) {
        WriteTime(buf, rec.time);
      }
      ghost var expected := if !IsZeroTime(rec.time) then TimeText(lib, opts, rec.time) else [];
      assert buf.bytes == expected;
      WriteLevel(buf, rec.level);
      expected := expected + LevelText(lib, opts, rec.level);
      assert buf.bytes == expected;
      if opts.addSource {
        WriteSource(buf, rec.source);
      }
      expected := expected + (if opts.addSource then SourceText(lib, opts, rec.source) else []);
      assert buf.bytes == expected;
      if opts.addPrefix {
        WritePrefix(buf);
      }
      expected := expected + (if opts.addPrefix then PrefixText(lib, st) else []);
      assert buf.bytes == expected;
      var _, _ := buf.WriteString(rec.message);
      var _, _ := buf.WriteString(SPACE);
      expected := expected + rec.message + SPACE;
      WriteAttrs(buf, rec);
      expected := expected + AttrsSegment(lib, st, rec);
      assert buf.bytes == expected;
      var _, _ := buf.WriteString(NEWLINE);
      line := buf.bytes;
      assert State() == st;
    }

    method WriteTime(buf: Buffer, t: Instant)
      requires Configured(opts)
      modifies buf
      ensures buf.bytes == old(buf.bytes) + TimeText(lib, opts, t)
    {
      var _, _ := buf.WriteString(lib.render(opts.styles.value.time, lib.formatTime(t, opts.timeFormat)));
      var _, _ := buf.WriteString(SPACE);
    }

    method WriteLevel(buf: Buffer, level: int)
      requires Configured(opts)
      modifies buf
      ensures buf.bytes == old(buf.bytes) + LevelText(lib, opts, level)
    {
      var style: Style;
      if level in opts.styles.value.levels {
        style := opts.styles.value.levels[level];
      } else {
        style := SetString(opts.styles.value.attr, lib.levelString(level));
      }
      var _, _ := buf.WriteString(lib.show(style));
      var _, _ := buf.WriteString(SPACE);
    }

    method WriteSource(buf: Buffer, src: Source)
      requires Configured(opts)
      modifies buf
      ensures buf.bytes == old(buf.bytes) + SourceText(lib, opts, src)
    {
      var file := SplitFile(src.file);
      if file == [] {
        return;
      }
      var link: Bytes := [];
      if opts.sourceLink.Some? {
        link := opts.sourceLink.value(src);
      }
      assert link == SourceLinkOf(opts, src);
      var text := SourceLabel(file, src.line);
      var shown := if link == [] then text else Hyperlink(link, text);
      assert SourceText(lib, opts, src) == lib.render(opts.styles.value.source, shown) + SPACE;
      var _, _ := buf.WriteString(lib.render(opts.styles.value.source, shown));
      var _, _ := buf.WriteString(SPACE);
    }

    method WritePrefix(buf: Buffer)
      requires Configured(opts) && buf != prefix
      modifies buf
      ensures buf.bytes == old(buf.bytes) + PrefixText(lib, State())
    {
      if |prefix.bytes| == 0 {
        return;
      }
      var _, _ := buf.WriteString(lib.render(opts.styles.value.prefix, prefix.bytes[..|prefix.bytes| - 1] + SPACE));
    }

    method WriteAttrs(buf: Buffer, rec: Record)
      requires Configured(opts) && buf != attrs
      modifies buf
      ensures buf.bytes == old(buf.bytes) + AttrsSegment(lib, State(), rec)
    {
      if |attrs.bytes| > 0 {
        var _, _ := buf.Write(attrs.bytes);
      }
      for i := 0 to |rec.attrs|
        invariant buf.bytes == old(buf.bytes) + attrs.bytes + AttrsText(lib, opts, rec.attrs[..i], group, groups)
      {
        WriteAttr(buf, rec.attrs[i], group, groups);
        AttrsTextStep(lib, opts, rec.attrs, i, group, groups);
      }
      assert rec.attrs[..|rec.attrs|] == rec.attrs;
    }

    method WriteAttr(buf: Buffer, attr: Attr, keyPrefix: Bytes, groups: seq<Bytes>)
      requires Configured(opts)
      modifies buf
      ensures buf.bytes == old(buf.bytes) + AttrText(lib, opts, attr, keyPrefix, groups)
      decreases Size(attr), 1
    {
      var a := attr;
      if opts.replaceAttr.Some? {
        a := opts.replaceAttr.value(groups, a);
      }
      assert a == Replace(opts, groups, attr);
      if IsZero(a) {
        return;
      }
      if a.value.Group? {
        var p, gs := keyPrefix, groups;
        if a.key != [] {
          p := p + a.key + DOT;
          gs := gs + [a.key];
        }
        var children := a.value.attrs;
        assert AttrText(lib, opts, attr, keyPrefix, groups) == AttrsText(lib, opts, children, p, gs);
        WriteGroup(buf, children, p, gs, Size(attr));
        return;
      }
      assert AttrText(lib, opts, attr, keyPrefix, groups) == LeafText(lib, opts, a, keyPrefix);
      var r := AttrStyle(lib, opts, a);
      var resolved := a.(value := r.0);
      var style, found := r.1, r.2;
      WriteAttrKey(buf, resolved, Faint(style), keyPrefix);
      if !found {
        style := Plain;
      }
      WriteAttrValue(buf, resolved, style);
      var _, _ := buf.WriteString(SPACE);
    }

    /** The loop of writeAttr over a group's children. */
    method WriteGroup(buf: Buffer, children: seq<Attr>, keyPrefix: Bytes, groups: seq<Bytes>, ghost bound: nat)
      requires Configured(opts) && SizeAll(children) < bound
      modifies buf
      ensures buf.bytes == old(buf.bytes) + AttrsText(lib, opts, children, keyPrefix, groups)
      decreases bound, 0
    {
      for i := 0 to |children|
        invariant buf.bytes == old(buf.bytes) + AttrsText(lib, opts, children[..i], keyPrefix, groups)
      {
        SizeAllBound(children, i);
        WriteAttr(buf, children[i], keyPrefix, groups);
        AttrsTextStep(lib, opts, children, i, keyPrefix, groups);
      }
      assert children[..|children|] == children;
    }

    method WriteAttrKey(buf: Buffer, attr: Attr, style: Style, keyPrefix: Bytes)
      modifies buf
      ensures buf.bytes == old(buf.bytes) + KeyText(lib, style, keyPrefix, attr.key)
    {
      var _, _ := buf.WriteString(lib.render(style, keyPrefix + attr.key + EQUALS));
    }

    method WriteAttrValue(buf: Buffer, attr: Attr, style: Style)
      modifies buf
      ensures buf.bytes == old(buf.bytes) + ValueText(lib, attr.value, style, true)
    {
      WriteStyledAttrValue(buf, attr, style, true);
    }

    method WriteStyledAttrValue(buf: Buffer, attr: Attr, style: Style, quote: bool)
      modifies buf
      ensures buf.bytes == old(buf.bytes) + ValueText(lib, attr.value, style, quote)
    {
      match attr.value {
        case Str(s) =>
          buf.bytes := buf.bytes + lib.render(style, Quoted(lib, quote, s));
        case Bool(b) =>
          buf.bytes := buf.bytes + lib.render(style, FormatBool(b));
        case Int(i) =>
          buf.bytes := buf.bytes + lib.render(style, FormatInt(i));
        case Uint(u) =>
          buf.bytes := buf.bytes + lib.render(style, FormatInt(u));
        case Float(f) =>
          buf.bytes := buf.bytes + lib.render(style, lib.formatFloat(f));
        case Time(t) =>
          buf.bytes := buf.bytes + lib.render(style, Quoted(lib, quote, lib.timeString(t)));
        case Duration(d) =>
          buf.bytes := buf.bytes + lib.render(style, lib.durationString(d));
        case Any(any) =>
          if any.None? {
            buf.bytes := buf.bytes + lib.render(style, Quoted(lib, quote, NIL));
          } else if any.value.marshal.Some? {
            match any.value.marshal.value {
              case Failure(_) =>
              case Success(enc) =>
                buf.bytes := buf.bytes + lib.render(style, Quoted(lib, quote, enc));
            }
          } else if any.value.stringer.Some? {
            buf.bytes := buf.bytes + lib.render(style, Quoted(lib, quote, any.value.stringer.value));
          } else {
            buf.bytes := buf.bytes + lib.render(style, Quoted(lib, quote, any.value.verbose));
          }
        case Group(_) =>
        case Valuer(_) =>
      }
    }
  }
}
