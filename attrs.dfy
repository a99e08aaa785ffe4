/**
 * hue's attribute capabilities and constructors: a value may supply its own
 * style (StyledAttr) and may mark itself as a prefix (PrefixAttr); Err and
 * Service build attributes whose values do.
 */
module Attrs {
  import opened Wrappers
  import opened Text
  import opened Lipgloss
  import opened Slog
  import opened Config

  const ErrKey: Bytes := Ascii("err")
  const ServiceKey: Bytes := Ascii("service")

  /** The assertion Value.Any().(StyledAttr), with the style it supplies. */
  function StyleOf(v: Value): (s: Option<Style>)
    ensures s.Some? ==> DynamicOf(v).Some? && DynamicOf(v).value.style == s
  {
    match DynamicOf(v)
    case None => None
    case Some(d) => d.style
  }

  /** The assertion Value.Any().(PrefixAttr). What Prefix() returns is not consulted. */
  function IsPrefixAttr(v: Value): (r: bool)
    ensures r ==> v.Any? || v.Valuer?
    ensures r ==> DynamicOf(v).Some?
  {
    DynamicOf(v).Some? && DynamicOf(v).value.prefix.Some?
  }

  /**
   * errorAttr{err} for an error whose Error() is message: it has Style(),
   * nothing else of hue's or the marshalling interfaces, and %+v prints
   * the wrapped error's message.
   */
  function ErrorAttr(pkg: Package, message: Bytes): (d: Dynamic)
    ensures d.style == Some(pkg.errorAttrStyle)
    ensures d.prefix.None? && d.marshal.None? && d.stringer.None?
    ensures d.verbose == message
  {
    Dynamic(Some(pkg.errorAttrStyle), None, None, None, message)
  }

  /**
   * Err for an error given by its message, None being a nil error: a nil
   * error stays a nil any and is not wrapped.
   */
  function Err(pkg: Package, err: Option<Bytes>): (a: Attr)
    ensures a.key == ErrKey && !IsZero(a)
    ensures err.None? <==> a.value == Any(None)
    ensures err.None? ==> StyleOf(a.value).None?
    ensures err.Some? ==> a.value == Any(Some(ErrorAttr(pkg, err.value)))
    ensures err.Some? ==> StyleOf(a.value) == Some(pkg.errorAttrStyle) && !IsPrefixAttr(a.value)
  {
    match err
    case None => Attr(ErrKey, Any(None))
    case Some(message) => Attr(ErrKey, Any(Some(ErrorAttr(pkg, message))))
  }

  /**
   * serviceAttr(name): a named string type with Style() and Prefix() (which
   * returns true); %+v prints the name.
   */
  function ServiceAttr(pkg: Package, name: Bytes): (d: Dynamic)
    ensures d.style == Some(pkg.serviceAttrStyle)
    ensures d.prefix == Some(true)
    ensures d.marshal.None? && d.stringer.None? && d.verbose == name
  {
    Dynamic(Some(pkg.serviceAttrStyle), Some(true), None, None, name)
  }

  function Service(pkg: Package, name: Bytes): (a: Attr)
    ensures a.key == ServiceKey
    ensures a.value == Any(Some(ServiceAttr(pkg, name)))
    ensures IsPrefixAttr(a.value) && StyleOf(a.value) == Some(pkg.serviceAttrStyle)
  {
    Attr(ServiceKey, Any(Some(ServiceAttr(pkg, name))))
  }
}
