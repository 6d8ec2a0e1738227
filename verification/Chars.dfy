/** The characters that several modules treat specially. */
module Chars {
  const LF: char := '\n'
  const ESC: char := '\U{1B}'
}
