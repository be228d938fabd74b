/** The raw-value escaper of the phrase base class (`writeToRaw`) and the
    output formats it knows. The escaper itself is defined outside the model,
    so every renderer takes it as a parameter and nothing is assumed about it. */
module RawEscaper {

  datatype Format =
    | AndroidXml              // File_IO::FORMAT_ANDROID_XML
    | AndroidXmlEscapedHtml   // File_IO::FORMAT_ANDROID_XML_ESCAPED_HTML
    | Json                    // File_IO::FORMAT_JSON
    | Plaintext               // File_IO::FORMAT_PLAINTEXT
    | DefaultFormat           // what writeToRaw uses when no format is passed

  /** `writeToRaw($value, $format)`. */
  type Escaper = (string, Format) -> string
}
