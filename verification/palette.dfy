/** The four status colours the screens share. */
module Palette {
  const Green: string := "#10b981"
  const Amber: string := "#f59e0b"
  const Red: string := "#ef4444"
  const Grey: string := "#6b7280"

  predicate IsPaletteColour(c: string) {
    c == Green || c == Amber || c == Red || c == Grey
  }
}
