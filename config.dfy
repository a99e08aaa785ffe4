/**
 * The handler's configuration as handler.go reads it, and the package-level
 * values of hue that handler.go and attrs.go use but whose definitions are
 * not part of this model.
 */
module Config {
  import opened Wrappers
  import opened Text
  import opened Lipgloss
  import opened Slog

  /** The style bundle: one style per segment and one per named level. */
  datatype Styles = Styles(time: Style, attr: Style, prefix: Style, source: Style, levels: map<int, Style>)

  /** hue.Options as handler.go uses it. */
  datatype Options = Options(
    level: Option<int>,                                // slog.Leveler, by its Level(); None is nil
    timeFormat: Bytes,
    addPrefix: bool,
    addSource: bool,
    replaceAttr: Option<(seq<Bytes>, Attr) -> Attr>,   // None is nil
    styles: Option<Styles>,                            // *Styles; None is nil
    sourceLink: Option<Source -> Bytes>)               // None is nil

  /** DefaultStyles(), FileSourceLink, errorAttrStyle and serviceAttrStyle. */
  datatype Package = Package(
    defaultStyles: Styles,
    fileSourceLink: Source -> Bytes,
    errorAttrStyle: Style,
    serviceAttrStyle: Style)

  const DefaultLogLevel: int := LevelInfo

  /** time.TimeOnly. */
  const DefaultTimeFormat: Bytes := Ascii("15:04:05")

  /**
   * The hook cannot make an attribute larger. Without this a hook could
   * rewrite every attribute into a group around it and writeAttr would never
   * return.
   */
  ghost predicate HookShrinks(hook: Option<(seq<Bytes>, Attr) -> Attr>) {
    hook.Some? ==> forall gs, a :: Size(hook.value(gs, a)) <= Size(a)
  }

  /** No hook, or a hook that returns its attribute unchanged. */
  ghost predicate IdentityHook(hook: Option<(seq<Bytes>, Attr) -> Attr>) {
    hook.Some? ==> forall gs, a :: hook.value(gs, a) == a
  }

  /** What every handler's options satisfy once New has run. */
  ghost predicate Configured(opts: Options) {
    opts.styles.Some? && HookShrinks(opts.replaceAttr)
  }

  /** The options New stores: its defaults, or the caller's with a style bundle filled in. */
  function NewOptions(pkg: Package, options: Option<Options>): (o: Options)
    requires options.Some? ==> HookShrinks(options.value.replaceAttr)
    ensures Configured(o)
    ensures options.None? ==>
      && o.level == Some(DefaultLogLevel)
      && o.timeFormat == DefaultTimeFormat
      && o.addPrefix && !o.addSource
      && o.replaceAttr.Some? && IdentityHook(o.replaceAttr)
      && o.styles == Some(pkg.defaultStyles)
      && o.sourceLink == Some(pkg.fileSourceLink)
    ensures options.Some? ==>
      && o.styles == (if options.value.styles.Some? then options.value.styles else Some(pkg.defaultStyles))
      && o.(styles := options.value.styles) == options.value
  {
    match options
    case None =>
      Options(Some(DefaultLogLevel), DefaultTimeFormat, true, false,
              Some((groups: seq<Bytes>, a: Attr) => a), Some(pkg.defaultStyles), Some(pkg.fileSourceLink))
    case Some(o) =>
      if o.styles.None? then o.(styles := Some(pkg.defaultStyles)) else o
  }
}
