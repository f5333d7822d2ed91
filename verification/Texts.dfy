/** Python strings: sequences of code points, lone surrogates included. */
module Texts {
  type CodePoint = c: int | 0 <= c < 0x110000

  type Text = seq<CodePoint>
}
