/**
 * The log/slog values the handler consumes: attributes, values of every
 * kind, records and call sites. A value of kind Any is described by the
 * capabilities its dynamic Go type implements.
 */
module Slog {
  import opened Wrappers
  import opened Text
  import opened Lipgloss

  type Int64 = x: int | -0x8000_0000_0000_0000 <= x < 0x8000_0000_0000_0000
  type Uint64 = x: int | 0 <= x < 0x1_0000_0000_0000_0000

  /** slog.Level: an int; the four named levels. */
  const LevelDebug: int := -4
  const LevelInfo: int := 0
  const LevelWarn: int := 4
  const LevelError: int := 8

  /**
   * A time.Time: seconds since January 1, year 1 UTC, nanoseconds, and an
   * opaque location.
   */
  datatype Instant = Instant(sec: int, nsec: nat, loc: nat)

  /** The zero time.Time{}: January 1, year 1, 00:00:00 UTC. */
  const ZeroTime: Instant := Instant(0, 0, 0)

  /** time.Time.IsZero: the instant is the zero time, in whatever location. */
  function IsZeroTime(t: Instant): (r: bool)
    ensures r <==> t.(loc := ZeroTime.loc) == ZeroTime
  {
    t.sec == 0 && t.nsec == 0
  }

  /** slog.Source. */
  datatype Source = Source(fn: Bytes, file: Bytes, line: int)

  /**
   * The dynamic value behind a value of kind Any (or a LogValuer), by what
   * its Go type implements.
   */
  datatype Dynamic = Dynamic(
    style: Option<Style>,                     // hue.StyledAttr: what Style() returns
    prefix: Option<bool>,                     // hue.PrefixAttr: what Prefix() returns
    marshal: Option<Result<Bytes, Bytes>>,    // encoding.TextMarshaler: MarshalText's text or error
    stringer: Option<Bytes>,                  // fmt.Stringer: what String() returns
    verbose: Bytes)                           // what fmt's %+v prints for it

  /** slog.Value, one constructor per slog.Kind. */
  datatype Value =
    | Str(s: Bytes)
    | Bool(b: bool)
    | Int(i: Int64)
    | Uint(u: Uint64)
    | Float(bits: bv64)
    | Time(t: Instant)
    | Duration(nanos: Int64)
    | Group(attrs: seq<Attr>)
    | Any(any: Option<Dynamic>)        // None is a nil any
    | Valuer(valuer: Dynamic)          // KindLogValuer

  /** slog.Attr. */
  datatype Attr = Attr(key: Bytes, value: Value)

  /** The zero slog.Attr{}: empty key and the zero Value (a nil any). */
  const ZeroAttr: Attr := Attr([], Any(None))

  /** attr.Equal(slog.Attr{}): an empty key and a nil any, the zero Attr itself. */
  function IsZero(a: Attr): (r: bool)
    ensures r <==> a == ZeroAttr
  {
    a.key == [] && a.value == Any(None)
  }

  /** What Value.Any() yields, when it can carry hue's capabilities. */
  function DynamicOf(v: Value): Option<Dynamic> {
    match v
    case Any(d) => d
    case Valuer(d) => Some(d)
    case _ => None
  }

  /** slog.Record with the call site already resolved (see Handler). */
  datatype Record = Record(time: Instant, level: int, message: Bytes, source: Source, attrs: seq<Attr>)

  /** The number of attributes in a, counting a itself and every nested one. */
  function Size(a: Attr): nat
    decreases a
  {
    match a.value
    case Group(children) => 1 + SizeAll(children)
    case _ => 1
  }

  function SizeAll(attrs: seq<Attr>): nat
    decreases attrs
  {
    if attrs == [] then 0 else Size(attrs[0]) + SizeAll(attrs[1..])
  }

  lemma {:induction false} SizeAllBound(attrs: seq<Attr>, i: nat)
    requires i < |attrs|
    ensures Size(attrs[i]) <= SizeAll(attrs)
  {
    if i > 0 {
      SizeAllBound(attrs[1..], i - 1);
    }
  }
}
