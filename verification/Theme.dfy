/** The fields of `config::AppearanceConfig` that the markdown pipeline reads. */
module Theme {
  datatype Theme = Theme(
    codeString: string,
    codeComment: string,
    codeKeyword: string,
    codeBg: string,
    textPrimary: string,
    textAccent: string,
    surfaceColor: string)
}
