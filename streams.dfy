/** An output file (`FILE*`) seen as the sequence of records written to it:
    instruction lines in pass one, instruction words in pass two, symbol
    lines for a table listing. */
module Streams {

  class Output<T> {
    var records: seq<T>

    constructor ()
      ensures records == []
    {
      records := [];
    }

    /** Appends one record; nothing already written changes. */
    method Write(x: T)
      modifies this
      ensures records == old(records) + [x]
    {
      records := records + [x];
    }
  }
}
