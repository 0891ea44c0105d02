/** Character classes of the C library in the "C" locale, as both scanners use them
    (std::isspace, std::isdigit, std::isalpha, std::isalnum). Characters outside
    ASCII belong to none of these classes. A character stands for one byte of
    the source's text, so the model agrees with it on ASCII input. */
module Chars {

  /** std::isspace: blank, tab, newline, vertical tab, form feed, carriage return. */
  predicate IsSpace(c: char) {
    c == ' ' || c == '\t' || c == '\n' || c == '\U{000B}' || c == '\U{000C}' || c == '\r'
  }

  /** std::isdigit */
  predicate IsDigit(c: char) {
    '0' <= c <= '9'
  }

  /** std::isalpha */
  predicate IsAlpha(c: char) {
    'a' <= c <= 'z' || 'A' <= c <= 'Z'
  }

  /** std::isalnum */
  predicate IsAlnum(c: char) {
    IsAlpha(c) || IsDigit(c)
  }
}
