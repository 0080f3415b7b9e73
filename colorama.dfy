/** The colorama escape codes the oldest rewrite writes around its text. */
module Colorama {
  import opened PyStr

  const ResetAll: String := "\U{1B}[0m"
  const Bright: String := "\U{1B}[1m"
  const DimStyle: String := "\U{1B}[2m"
  const ForeRed: String := "\U{1B}[31m"
  const ForeYellow: String := "\U{1B}[33m"
  const ForeBlue: String := "\U{1B}[34m"
}
