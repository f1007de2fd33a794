/**
  The language record the components receive. The table of languages and
  their translations is data outside this model, so it is always a parameter.
 */
module Languages {

  /** A language: its code, English and native names, and the display strings
      for the semantic keys ("min", "hour", …, "like", "reply", "message"). */
  datatype Language = Language(
    code: string,
    name: string,
    nativeName: string,
    translations: map<string, string>)
}
