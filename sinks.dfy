/**
 * The character destination a logger writes through: the stream buffer of
 * a `std::ostream` in both headers, reduced to the text written so far.
 */
module Sinks {

  class Sink {
    var text: string

    constructor ()
      ensures text == ""
    {
      text := "";
    }

    /** `stream << s` for an already-rendered string. */
    method Write(s: string)
      modifies this
      ensures text == old(text) + s
    {
      text := text + s;
    }
  }
}
