/**
 * Error messages: the message templates as sprintf fills them, the caller
 * location addError names and a model of strip_tags.
 */
module Errors {
  import opened Common

  /** The file and line a message names as the place the failing call came from. */
  datatype Origin = Origin(file: string, line: int)

  /** The file the backtrace stub names (codb.class.php:87). */
  const UnknownFile := "unknown file"

  /**
   * The location addError prints. With backtracing on it is the frame the
   * backtrace reports. With it off it is the stub's: the file "unknown
   * file", and the line 0, which is what the template's %d makes of the
   * stub's "unknown line". This is the corrected reading; see CallerAsWritten.
   */
  function Caller(useBacktracing: bool, frame: Origin): Origin {
    if useBacktracing then frame else Origin(UnknownFile, 0)
  }

  /**
   * The location as written: with backtracing off addError reads entry [1]
   * of the two-key stub array, which does not exist, so sprintf prints ""
   * for the file and 0 for the line.
   */
  function CallerAsWritten(useBacktracing: bool, frame: Origin): Origin {
    if useBacktracing then frame else Origin("", 0)
  }

  /** As written, a message made with backtracing off names no file at all. */
  lemma StubFileLostAsWritten(frame: Origin)
    ensures Place(CallerAsWritten(false, frame)) == "<strong> line 0</strong>"
  {
    assert IntToString(0) == "0";
  }

  /** Corrected, a message made with backtracing off names the stub's file. */
  lemma StubFileNamed(frame: Origin)
    ensures Place(Caller(false, frame)) == "<strong>unknown file line 0</strong>"
  {
    assert IntToString(0) == "0";
  }

  /** The error templates the engine and the setters use. */
  datatype ErrorKind =
    | QueryFailed
    | EngineMismatch
    | NoTableFields
    | TableExists
    | TableCreate
    | TableAlter
    | IndexCreate(query: string)
    | InsertData
    | Custom(text: string)

  /** The marked-up location every template starts its message with. */
  function Place(at: Origin): string {
    "<strong>" + at.file + " line " + IntToString(at.line) + "</strong>"
  }

  /**
   * The message addError stores: sprintf of the kind's template with the
   * caller's file and line, then the detail, then the table, as arguments.
   * Templates with fewer directives than arguments ignore the rest.
   */
  function Message(k: ErrorKind, at: Origin, detail: string, table: string): string {
    match k
    case QueryFailed => "Query failed ( <strong>query called from " + at.file + " line " + IntToString(at.line) + "</strong> ): " + detail
    case EngineMismatch => "Cannot perform action ( Called from " + Place(at) + " ), dabatase engine mismatch: " + detail
    case NoTableFields => "Table has no fields ( Called from " + Place(at) + " ), omitting table: `" + detail + "`"
    case TableExists => "Can't create table ( Called from " + Place(at) + " ), table exists: `" + detail + "`"
    case TableCreate => "Can't create table ( Called from " + Place(at) + " ): " + detail + " ( table: " + table + "  )"
    case TableAlter => "Can't alter table ( Called from " + Place(at) + " ): " + detail + " ( table: " + table + "  )"
    // the failing statement is appended to the template itself
    case IndexCreate(q) => "Can't create table indexes ( Called from " + Place(at) + " ): " + detail + " ( table: " + table + "  ); Query: " + q
    case InsertData => "Unable to pre-populate table ( Called from " + Place(at) + " ): " + detail + " ( table: " + table + "  ); Query: "
    case Custom(text) => text
  }

  // ---------------------------------------------------------------------------
  // strip_tags
  // ---------------------------------------------------------------------------

  /** The text after the '>' that closes a tag (nothing when the tag is never closed). */
  function SkipTag(s: string): (r: string)
    ensures |r| <= |s|
    decreases |s|
  {
    if |s| == 0 then "" else if s[0] == '>' then s[1..] else SkipTag(s[1..])
  }

  /** Every '<' left in the text is followed by white space, so it opens no tag. */
  predicate NoTags(s: string) {
    forall i :: 0 <= i < |s| && s[i] == '<' ==> i + 1 < |s| && IsSpace(s[i + 1])
  }

  /**
   * strip_tags without an allow list: a '<' followed by white space is kept
   * as text; any other '<' starts a tag that is dropped up to its '>'.
   */
  function StripTags(s: string): (r: string)
    ensures NoTags(r)
    ensures |s| > 0 && s[0] != '<' ==> |r| > 0 && r[0] == s[0]
    ensures |r| <= |s|
    decreases |s|
  {
    if |s| == 0 then ""
    else if s[0] == '<' then
      if |s| > 1 && IsSpace(s[1]) then
        var t := StripTags(s[1..]);
        assert t[0] == s[1];
        "<" + t
      else StripTags(SkipTag(s[1..]))
    else
      var t := StripTags(s[1..]);
      assert forall i :: 1 <= i < |[s[0]] + t| ==> ([s[0]] + t)[i] == t[i - 1];
      [s[0]] + t
  }

  // ---------------------------------------------------------------------------
  // Properties
  // ---------------------------------------------------------------------------

  /** Text with no tag in it passes strip_tags unchanged. */
  lemma {:induction false} StripTagsKeepsPlain(s: string)
    requires NoTags(s)
    ensures StripTags(s) == s
    decreases |s|
  {
    if |s| > 0 {
      assert NoTags(s[1..]) by {
        forall i | 0 <= i < |s[1..]| && s[1..][i] == '<'
          ensures i + 1 < |s[1..]| && IsSpace(s[1..][i + 1])
        {
          assert s[i + 1] == '<';
        }
      }
      StripTagsKeepsPlain(s[1..]);
    }
  }

  /** Stripping tags twice strips nothing more than stripping them once. */
  lemma StripTagsIdempotent(s: string)
    ensures StripTags(StripTags(s)) == StripTags(s)
  {
    StripTagsKeepsPlain(StripTags(s));
  }
}
