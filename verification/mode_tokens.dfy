/**
 The string tokens a hosted mini-app receives through `updateDisplayMode(to:)`.
 Every widget switches on the same three literals and falls back to a
 `default:` branch for anything else.
 */
module ModeTokens {

  const OneEighth: string := "oneEighth"
  const Half: string := "half"
  const FullScreen: string := "fullScreen"

  /** True iff a widget's switch has an explicit case for `token`. */
  predicate IsKnown(token: string) {
    token == OneEighth || token == Half || token == FullScreen
  }

  /** True iff `token` selects the expanded (`"half", "fullScreen"`) case. */
  predicate IsExpanded(token: string) {
    token == Half || token == FullScreen
  }
}
