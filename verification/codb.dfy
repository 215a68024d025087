/**
 * The engine-independent base class: its instance fields, the error stack,
 * the guarded setters, the macro processor and the int() cast.
 */
module CodbCore {
  import opened Common
  import opened Macros
  import opened Errors
  import opened Link

  /** The instance fields the engine reads but does not write. */
  datatype Settings = Settings(database: string, prefix: string, languages: seq<string>, current: string, useBacktracing: bool)
  {
    function MacroEnv(): Env {
      Env(database, prefix, languages, current)
    }
  }

  /**
   * The instance fields each statement updates, with the log of statement
   * texts the server has received and the link's last error text.
   */
  datatype Session = Session(failed: bool, affected: int, insertId: int, errors: seq<string>, sent: seq<string>, linkError: string)

  /** Everything an engine operation depends on besides the session. */
  datatype Config = Config(server: Server, enginePath: string, settings: Settings)
  {
    /** escapeString: without a link it returns false, which interpolates as "". */
    function Escape(s: string): string {
      if server.connected then server.escape(s) else ""
    }

    /** A backtrace frame inside the engine file. */
    function At(line: int): Origin {
      Origin(enginePath, line)
    }
  }

  /** addError on the pure state: raise the failure flag and append one message. */
  function PushError(st: Settings, s: Session, k: ErrorKind, frame: Origin, detail: string, table: string): Session {
    s.(failed := true, errors := s.errors + [Message(k, Caller(st.useBacktracing, frame), detail, table)])
  }

  const BacktraceTypeError := "' is not in a boolean type"
  const PrefixTypeError := "Cannot set DB prefix -- not valid string parameter."
  /** addError's default second argument. */
  const NoInfo := "no addtional info"

  class Codb {
    /** The database link, opened (or not) by the constructor. */
    const server: Server
    /** Where the engine's source file lies; backtrace frames inside the engine name it. */
    const enginePath: string

    var databaseDb: string
    var databasePrefix: string
    var availableLanguages: seq<string>
    var currentLanguage: string
    var useBacktracing: bool
    var errorStack: seq<string>
    var isQueryFailed: bool
    var affectedRows: int
    var lastInsertedId: int
    /** Every statement text sent to the server so far, after macro processing. */
    var sent: seq<string>
    /** The link's error text after the last statement. */
    var linkError: string

    function Params(): Settings
      reads this
    {
      Settings(databaseDb, databasePrefix, availableLanguages, currentLanguage, useBacktracing)
    }

    function State(): Session
      reads this
    {
      Session(isQueryFailed, affectedRows, lastInsertedId, errorStack, sent, linkError)
    }

    function Cfg(): Config
      reads this
    {
      Config(server, enginePath, Params())
    }

    /** The instance as the engine's constructor leaves it, before any statement. */
    constructor(database: string, server: Server, enginePath: string)
      ensures this.server.connected == server.connected && this.enginePath == enginePath
      ensures Params() == Settings(database, "", [], "", true)
      ensures State() == Session(false, 0, 0, [], [], "")
    {
      this.server := server;
      this.enginePath := enginePath;
      databaseDb := database;
      databasePrefix := "";
      availableLanguages := [];
      currentLanguage := "";
      useBacktracing := true;
      errorStack := [];
      isQueryFailed := false;
      affectedRows := 0;
      lastInsertedId := 0;
      sent := [];
      linkError := "";
    }

    /** isError: whether the last statement failed, as the session records it. */
    function IsError(): (r: bool)
      reads this
      ensures r == State().failed
    {
      isQueryFailed
    }

    /**
     * getError: the most recent message, tag-stripped in plain mode, or
     * false (None) when nothing was recorded.
     */
    function GetError(plain: bool): (r: Option<string>)
      reads this
      ensures r.Some? <==> |errorStack| > 0
      ensures r.Some? && !plain ==> r.value == errorStack[|errorStack| - 1]
      ensures r.Some? && plain ==> r.value == StripTags(errorStack[|errorStack| - 1]) && NoTags(r.value)
    {
      if |errorStack| > 0 then
        var last := errorStack[|errorStack| - 1];
        Some(if plain then StripTags(last) else last)
      else None
    }

    /**
     * addError: raises the failure flag and appends exactly one message,
     * which getError then returns; earlier messages stay as they were.
     */
    method AddError(k: ErrorKind, detail: string, table: string, frame: Origin)
      modifies this
      ensures Params() == old(Params())
      ensures State() == PushError(old(Params()), old(State()), k, frame, detail, table)
      ensures IsError()
      ensures |errorStack| == |old(errorStack)| + 1 && errorStack[..|old(errorStack)|] == old(errorStack)
      ensures GetError(false) == Some(Message(k, Caller(useBacktracing, frame), detail, table))
      ensures GetError(true) == Some(StripTags(Message(k, Caller(useBacktracing, frame), detail, table)))
    {
      isQueryFailed := true;
      var caller := Caller(useBacktracing, frame);
      errorStack := errorStack + [Message(k, caller, detail, table)];
    }

    /**
     * getAllErrors: every message in the order recorded, joined with the
     * glue, or false (None) when there is none. In plain mode each stored
     * message is first replaced by its tag-stripped form, so a second plain
     * call finds nothing left to strip.
     */
    method GetAllErrors(glue: string, plain: bool) returns (r: Option<string>)
      modifies this
      ensures Params() == old(Params())
      ensures State() == old(State()).(errors := errorStack)
      ensures |errorStack| == |old(errorStack)|
      ensures forall i :: 0 <= i < |errorStack| ==>
        errorStack[i] == if plain then StripTags(old(errorStack)[i]) else old(errorStack)[i]
      ensures plain ==> forall i :: 0 <= i < |errorStack| ==> NoTags(errorStack[i])
      ensures (forall i :: 0 <= i < |old(errorStack)| ==> NoTags(old(errorStack)[i])) ==> errorStack == old(errorStack)
      ensures r.Some? <==> |errorStack| > 0
      ensures r.Some? ==> r.value == Join(glue, errorStack)
    {
      if |errorStack| == 0 {
        return None;
      }
      if plain {
        var stack := errorStack;
        var i := 0;
        while i < |stack|
          invariant 0 <= i <= |stack| == |errorStack|
          invariant forall j :: 0 <= j < i ==> stack[j] == StripTags(errorStack[j])
          invariant forall j :: i <= j < |stack| ==> stack[j] == errorStack[j]
        {
          stack := stack[i := StripTags(stack[i])];
          i := i + 1;
        }
        forall j | 0 <= j < |errorStack| && NoTags(errorStack[j])
          ensures stack[j] == errorStack[j]
        {
          StripTagsKeepsPlain(errorStack[j]);
        }
        errorStack := stack;
      }
      r := Some(Join(glue, errorStack));
    }

    /** setLanguages: only a non-empty array replaces the language list. */
    method SetLanguages(languages: PhpValue)
      modifies this
      ensures availableLanguages == if languages.Arr? && !Empty(languages) then languages.items else old(availableLanguages)
      ensures !languages.Arr? || Empty(languages) ==> Params() == old(Params())
      ensures Params() == old(Params()).(languages := availableLanguages)
      ensures State() == old(State())
    {
      if languages.Arr? && !Empty(languages) {
        availableLanguages := languages.items;
      }
    }

    /** setCurrentLanguage: an empty() language ("" or "0") leaves the current one in place. */
    method SetCurrentLanguage(language: string)
      modifies this
      ensures currentLanguage == if EmptyString(language) then old(currentLanguage) else language
      ensures Params() == old(Params()).(current := currentLanguage)
      ensures State() == old(State())
    {
      if !EmptyString(language) {
        currentLanguage := language;
      }
    }

    /**
     * setBacktraceState: a boolean sets the flag; anything else leaves it and
     * records an error that quotes the value.
     */
    method SetBacktraceState(turnOn: PhpValue, frame: Origin)
      modifies this
      ensures turnOn.Bool? ==> useBacktracing == turnOn.b && State() == old(State())
      ensures !turnOn.Bool? ==> useBacktracing == old(useBacktracing)
      ensures !turnOn.Bool? ==> State() == PushError(old(Params()), old(State()),
        Custom("Cannot change <b>use_backtracing</b> property. '" + ValueText(turnOn) + BacktraceTypeError), frame, NoInfo, "")
      ensures Params() == old(Params()).(useBacktracing := useBacktracing)
    {
      if turnOn.Bool? {
        useBacktracing := turnOn.b;
      } else {
        AddError(Custom("Cannot change <b>use_backtracing</b> property. '" + ValueText(turnOn) + BacktraceTypeError), NoInfo, "", frame);
      }
    }

    /**
     * setDBPrefix, as evidently intended: a non-empty string becomes the
     * table prefix; another non-empty value records an error; an empty one
     * is ignored. (The source assigns an undefined variable instead; see
     * PrefixAfterAsWritten.)
     */
    method SetDBPrefix(prefix: PhpValue, frame: Origin)
      modifies this
      ensures databasePrefix == if prefix.Str? && !Empty(prefix) then prefix.s else old(databasePrefix)
      ensures Empty(prefix) || prefix.Str? ==> State() == old(State())
      ensures !Empty(prefix) && !prefix.Str? ==> State() == PushError(old(Params()), old(State()), Custom(PrefixTypeError), frame, NoInfo, "")
      ensures Params() == old(Params()).(prefix := databasePrefix)
    {
      if !Empty(prefix) {
        if prefix.Str? {
          databasePrefix := prefix.s;
        } else {
          AddError(Custom(PrefixTypeError), NoInfo, "", frame);
        }
      }
    }

    /**
     * The select list one codb_lang_all(field) expands to: `field_lang` for
     * every available language, followed by `field_lang` AS 'field_current'
     * right after the current language's column.
     */
    method LangList(field: string) returns (list: seq<string>)
      ensures list == LangItems(field, availableLanguages, currentLanguage)
    {
      list := [];
      var j := 0;
      while j < |availableLanguages|
        invariant 0 <= j <= |availableLanguages|
        invariant list == LangItems(field, availableLanguages[..j], currentLanguage)
      {
        var lang := availableLanguages[j];
        ghost var before := list;
        var col := "`" + field + "_" + lang + "`";
        list := list + [col];
        if lang == currentLanguage {
          list := list + [col + " AS '" + field + "_current'"];
        }
        assert list == before + LangItem(field, lang, currentLanguage);
        LangItemsAppend(field, availableLanguages[..j], lang, currentLanguage);
        assert availableLanguages[..j + 1] == availableLanguages[..j] + [lang];
        j := j + 1;
      }
      assert availableLanguages[..j] == availableLanguages;
    }

    /**
     * processMacros: empty text is returned as it is; otherwise every
     * codb_lang_all(x) is expanded, one match after another, and then the
     * single tokens are replaced.
     */
    method ProcessMacros(query: string) returns (r: string)
      ensures r == Rewrite(Params().MacroEnv(), query)
    {
      if EmptyString(query) {
        return query;
      }
      var env := Params().MacroEnv();
      var s := query;
      if Occurs(s, LangAllOpen) {
        var matches := LangAllMatches(s);
        var i := 0;
        while i < |matches|
          invariant 0 <= i <= |matches|
          invariant ReplaceLangAll(env, query, matches) == ReplaceLangAll(env, s, matches[i..])
        {
          var field := matches[i];
          var list := LangList(field);
          assert matches[i..][1..] == matches[i + 1..];
          s := StrReplace(LangAllOpen + field + ")", Join(", ", list), s);
          i := i + 1;
        }
      }
      r := ExpandSingle(env, s);
    }
  }

  /**
   * setDBPrefix as the source writes it: the string branch assigns the
   * undefined $define_prefix, so the prefix becomes "" (null) instead of
   * the argument.
   */
  function PrefixAfterAsWritten(current: string, prefix: PhpValue): (r: string)
    ensures prefix.Str? && !Empty(prefix) ==> r == ""
    ensures Empty(prefix) || !prefix.Str? ==> r == current
  {
    if !Empty(prefix) && prefix.Str? then "" else current
  }

  /** Setting the prefix "wp_" as written loses it, where the intended setter keeps it. */
  lemma PrefixAsWrittenLosesPrefix()
    ensures PrefixAfterAsWritten("", Str("wp_")) != "wp_"
  {
  }

  // ---------------------------------------------------------------------------
  // int()
  // ---------------------------------------------------------------------------

  /**
   * int(): intval of a non-empty value, 0 for an empty one, and a zero
   * result replaced by the string '0' so that it never prints as "".
   */
  function IntCast(v: PhpValue): (r: PhpValue)
    ensures r == Str("0") || (r.Int? && r.i != 0)
    ensures r.Int? ==> r.i == IntVal(v)
    ensures r == Str("0") <==> IntVal(v) == 0
    ensures ValueText(r) != ""
  {
    var n: PhpInt := if !Empty(v) then IntVal(v) else 0;
    if n == 0 then Str("0") else Int(n)
  }

  /** The text int() yields converts back to the value's intval. */
  lemma IntCastReadsBack(v: PhpValue)
    ensures StrToInt(ValueText(IntCast(v))) == IntVal(v)
  {
    var r := IntCast(v);
    if r.Int? {
      StrToIntOfIntToString(r.i);
    } else {
      StrToIntOfIntToString(0);
    }
  }

  /** int() applied to its own result changes nothing. */
  lemma IntCastIdempotent(v: PhpValue)
    ensures IntCast(IntCast(v)) == IntCast(v)
  {
    if IntCast(v).Str? {
      StrToIntOfIntToString(0);
    }
  }
}
