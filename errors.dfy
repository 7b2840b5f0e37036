/**
 * The exceptions the client throws, as one error value each: `MogileFS_Exception` with its
 * messages, and the three typed subclasses for the tracker's key errors.
 */
module Errors {
  import opened Wrappers
  import opened UrlCodec
  import opened Decimal

  datatype MogileError =
    | UnknownKey(key: string)      // MogileFS_Exception_UnknownKey
    | EmptyFile(key: string)       // MogileFS_Exception_EmptyFile
    | NoneMatch(key: string)       // MogileFS_Exception_NoneMatch
    | TrackerError(message: string) // any other ERR: the decoded, trimmed line
    | NoTracker                    // no tracker accepted a connection
    | WriteFailed                  // fwrite returned FALSE
    | ReadFailed                   // fgets returned FALSE
    | UnknownResponse              // neither OK nor ERR
    | BadStatus(status: int)       // a PUT answered outside 200..299
    | NotRetrieved(key: string)    // no replica answered 200

  /** The error the tracker can report about a key it was asked for. */
  predicate IsKeyError(e: MogileError) {
    e.UnknownKey? || e.EmptyFile? || e.NoneMatch?
  }

  /** The tracker error code a typed error stands for. */
  function CodeOf(e: MogileError): Option<string> {
    match e
    case UnknownKey(_) => Some("unknown_key")
    case EmptyFile(_) => Some("empty_file")
    case NoneMatch(_) => Some("none_match")
    case _ => None
  }

  /**
   * The `switch ($words[1])` of an ERR reply: three codes become typed errors about the
   * request's `key` argument; an absent or other code becomes a generic error quoting the line.
   */
  function MapError(code: Option<string>, line: string, key: string): (e: MogileError)
    ensures IsKeyError(e) || e.TrackerError?
  {
    match code
    case Some("unknown_key") => UnknownKey(key)
    case Some("empty_file") => EmptyFile(key)
    case Some("none_match") => NoneMatch(key)
    case _ => TrackerError(Trim(UrlDecode(line)))
  }

  /** The typed errors are exactly the three known codes, and each carries the request's key. */
  lemma MapErrorTyped(code: Option<string>, line: string, key: string)
    ensures IsKeyError(MapError(code, line, key)) <==> code in {Some("unknown_key"), Some("empty_file"), Some("none_match")}
    ensures IsKeyError(MapError(code, line, key)) ==> CodeOf(MapError(code, line, key)) == code && MapError(code, line, key).key == key
    ensures !IsKeyError(MapError(code, line, key)) ==> MapError(code, line, key) == TrackerError(Trim(UrlDecode(line)))
  {
  }

  /** The exception text, with the `:key`, `:message` and `:status` parameters filled in. */
  function Message(e: MogileError): string {
    match e
    case UnknownKey(k) => "Unknown key '" + k + "'"
    case EmptyFile(k) => "Empty file '" + k + "'"
    case NoneMatch(k) => "None match '" + k + "'"
    case TrackerError(m) => "Unknown Error: " + m
    case NoTracker => "Unable to obtain connection to any tracker."
    case WriteFailed => "Unable to write to socket"
    case ReadFailed => "Unable to read from socket"
    case UnknownResponse => "Unknown error!"
    case BadStatus(s) => "Server returned a " + IntToDecimal(s) + " status code"
    case NotRetrieved(k) => "Unable to retrieve key '" + k + "'"
  }

  predicate StartsWith(text: string, part: string) {
    |part| <= |text| && text[..|part|] == part
  }

  /** `part` occurs somewhere in `text`. */
  predicate Mentions(text: string, part: string) {
    exists i :: 0 <= i <= |text| && StartsWith(text[i..], part)
  }

  /** Every error about a key names that key, quoted, in its message. */
  lemma MessageNamesKey(e: MogileError)
    requires IsKeyError(e) || e.NotRetrieved?
    ensures Mentions(Message(e), "'" + e.key + "'")
  {
    var m := Message(e);
    var q := "'" + e.key + "'";
    var prefix := match e
      case UnknownKey(_) => "Unknown key "
      case EmptyFile(_) => "Empty file "
      case NoneMatch(_) => "None match "
      case NotRetrieved(_) => "Unable to retrieve key ";
    assert m == prefix + q;
    assert m[|prefix|..] == q;
    assert StartsWith(m[|prefix|..], q);
  }
}
