/** std::isspace in the "C" locale, on which the scanner and the field rules rely. */
module Characters {
  predicate IsSpace(c: char) {
    c == ' ' || '\t' <= c <= '\r'
  }
}
