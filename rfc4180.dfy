/**
 * A reader for one record of the comma-separated-values format of RFC 4180,
 * section 2: fields are separated by commas (rule 4); a field enclosed in
 * double quotes may hold commas (rule 6), and inside it a doubled quote
 * stands for one quote (rule 7).  Line breaks are ordinary characters here:
 * the reader is given one record at a time.  The export is checked against it.
 */
module Rfc4180 {

  /**
   * Reads the rest of a quoted field, after its opening quote: the field's
   * value and what follows the closing quote.
   */
  function ReadQuoted(s: string): (r: (string, string))
    ensures |r.1| <= |s|
  {
    if s == [] then ("", "")
    else if s[0] == '"' then
      if |s| >= 2 && s[1] == '"' then
        var (v, rest) := ReadQuoted(s[2..]); ("\"" + v, rest)
      else ("", s[1..])
    else
      var (v, rest) := ReadQuoted(s[1..]); ([s[0]] + v, rest)
  }

  /** Reads an unquoted field: everything up to the next comma. */
  function ReadBare(s: string): (r: (string, string))
    ensures |r.1| <= |s|
  {
    if s == [] || s[0] == ',' then ("", s)
    else
      var (v, rest) := ReadBare(s[1..]); ([s[0]] + v, rest)
  }

  /** Reads one field, quoted or not: its value and the text after it. */
  function ReadField(s: string): (r: (string, string))
    ensures |r.1| <= |s|
  {
    if |s| > 0 && s[0] == '"' then ReadQuoted(s[1..]) else ReadBare(s)
  }

  /** The field values of one record. */
  function ReadRecord(s: string): (fields: seq<string>)
    ensures |fields| >= 1
    decreases |s|
  {
    var (v, rest) := ReadField(s);
    if |rest| > 0 && rest[0] == ',' then [v] + ReadRecord(rest[1..]) else [v]
  }

  /** The content of a quoted field with each doubled quote read as one. */
  function Undouble(s: string): string {
    if |s| >= 2 && s[0] == '"' && s[1] == '"' then "\"" + Undouble(s[2..])
    else if s == [] then ""
    else [s[0]] + Undouble(s[1..])
  }
}
