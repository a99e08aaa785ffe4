/**
 * lipgloss styles as opaque values. Only the two properties the handler sets
 * are visible: the faint flag (Style.Faint) and the set string
 * (Style.SetString). Everything else (colours, weights) is `look`. Rendering
 * is a parameter of the model: see Foreign.Lib.
 */
module Lipgloss {
  import opened Text

  datatype Style = Style(look: nat, faint: bool, value: Bytes)

  /** lipgloss.NewStyle() and the zero lipgloss.Style{}. */
  const Plain: Style := Style(0, false, [])

  /** Style.Faint(true). */
  function Faint(s: Style): Style { s.(faint := true) }

  /** Style.SetString(v). */
  function SetString(s: Style, v: Bytes): Style { s.(value := v) }
}
