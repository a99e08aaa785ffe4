/**
 * The library code the handler calls that is not part of this model, as
 * parameters: each field is an uninterpreted function.
 */
module Foreign {
  import opened Text
  import opened Lipgloss
  import opened Slog

  datatype Lib = Lib(
    render: (Style, Bytes) -> Bytes,        // lipgloss Style.Render
    show: Style -> Bytes,                   // lipgloss Style.String
    quote: Bytes -> Bytes,                  // strconv.Quote
    formatFloat: bv64 -> Bytes,             // strconv.FormatFloat(f, 'f', -1, 64)
    formatTime: (Instant, Bytes) -> Bytes,  // time.Time.Format(layout)
    timeString: Instant -> Bytes,           // time.Time.String
    durationString: Int64 -> Bytes,         // time.Duration.String
    levelString: int -> Bytes,              // slog.Level.String
    logValue: Dynamic -> Value)             // slog.Value.Resolve of a LogValuer
  {
    /** slog.Value.Resolve: only a LogValuer changes. */
    function Resolve(v: Value): (r: Value)
      ensures !v.Valuer? ==> r == v
    {
      if v.Valuer? then logValue(v.valuer) else v
    }
  }
}
