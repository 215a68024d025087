/**
 * The macro rewriter of codb::processMacros. Query text may carry three
 * tokens:
 *   codb_lang_all(x)  x in \w+     every per-language column of field x
 *   codb_lang(x)      x in \w+     the column of x for the current language
 *   codb_table(x)     x in [\w-]+  the database-qualified, prefixed table x
 * The rewrite runs in two passes. The first collects every codb_lang_all
 * token (preg_match_all) and, for each in turn, replaces all occurrences of
 * that token text in the current query (str_replace). The second runs the
 * codb_lang replacement over the whole text and then the codb_table
 * replacement over the result (preg_replace with two patterns).
 *
 * The patterns are matched by a scanner rather than a regular-expression
 * engine: each token is its opening text, the longest non-empty run of
 * allowed characters and a closing parenthesis. Because ")" is never an
 * allowed character, backtracking cannot produce any other match.
 */
module Macros {
  import opened Common

  /** The values the rewrite reads from the instance. */
  datatype Env = Env(database: string, prefix: string, languages: seq<string>, current: string)

  const LangAllOpen: string := "codb_lang_all("
  const LangOpen: string := "codb_lang("
  const TableOpen: string := "codb_table("

  /** PCRE's \w without the u modifier. */
  predicate IsWordChar(c: char) {
    ('a' <= c <= 'z') || ('A' <= c <= 'Z') || ('0' <= c <= '9') || c == '_'
  }

  /** The class [\w_-] of the codb_table pattern. */
  predicate IsTableChar(c: char) {
    IsWordChar(c) || c == '-'
  }

  predicate Allowed(c: char, dash: bool) {
    if dash then IsTableChar(c) else IsWordChar(c)
  }

  predicate AllAllowed(w: string, dash: bool) {
    forall i :: 0 <= i < |w| ==> Allowed(w[i], dash)
  }

  /** Length of the longest prefix of s made of allowed characters. */
  function Run(s: string, dash: bool): (n: nat)
    ensures n <= |s|
    ensures AllAllowed(s[..n], dash)
    ensures n < |s| ==> !Allowed(s[n], dash)
  {
    if |s| > 0 && Allowed(s[0], dash) then
      var k := Run(s[1..], dash);
      assert s[..k + 1] == [s[0]] + s[1..][..k];
      k + 1
    else 0
  }

  predicate HasPrefix(s: string, p: string) {
    |p| <= |s| && s[..|p|] == p
  }

  predicate OccursAt(s: string, p: string, i: int) {
    0 <= i <= |s| - |p| && s[i..i + |p|] == p
  }

  /** p occurs somewhere in s (PHP's strpos(s, p) !== false). */
  predicate Occurs(s: string, p: string) {
    exists i | 0 <= i <= |s| - |p| :: OccursAt(s, p, i)
  }

  /** A token found at the start of a text: its length and its argument. */
  datatype Token = Token(len: nat, arg: string)

  /** The token opened by `open` at the very start of s, if there is one. */
  function MatchAt(s: string, open: string, dash: bool): (r: Option<Token>)
    ensures r.Some? ==> HasPrefix(s, open)
    ensures r.Some? ==> r.value.len <= |s| && s[..r.value.len] == open + r.value.arg + ")"
    ensures r.Some? ==> |r.value.arg| > 0 && AllAllowed(r.value.arg, dash)
  {
    if !HasPrefix(s, open) then None
    else
      var k := Run(s[|open|..], dash);
      if k > 0 && |open| + k < |s| && s[|open| + k] == ')' then
        var arg := s[|open|..|open| + k];
        assert arg == s[|open|..][..k];
        assert s[..|open| + k + 1] == s[..|open|] + s[|open|..|open| + k] + [s[|open| + k]];
        assert s[..|open| + k + 1] == open + arg + ")";
        Some(Token(|open| + k + 1, arg))
      else None
  }

  /** preg_match_all of the codb_lang_all pattern: the arguments of its matches, left to right. */
  function LangAllMatches(s: string): seq<string>
    decreases |s|
  {
    if |s| == 0 then []
    else match MatchAt(s, LangAllOpen, false)
      case Some(t) => [t.arg] + LangAllMatches(s[t.len..])
      case None => LangAllMatches(s[1..])
  }

  /** PHP's str_replace(search, rep, s): left to right, non-overlapping. */
  function StrReplace(search: string, rep: string, s: string): string
    requires |search| > 0
    decreases |s|
  {
    if |s| < |search| then s
    else if s[..|search|] == search then rep + StrReplace(search, rep, s[|search|..])
    else [s[0]] + StrReplace(search, rep, s[1..])
  }

  /** The column one language contributes, followed by its aliased copy when it is the current language. */
  function LangItem(field: string, lang: string, current: string): (r: seq<string>)
    ensures 1 <= |r| <= 2
  {
    var col := "`" + field + "_" + lang + "`";
    if lang == current then [col, col + " AS '" + field + "_current'"] else [col]
  }

  /** The columns codb_lang_all(field) lists for each of the given languages, in order. */
  function LangItems(field: string, languages: seq<string>, current: string): (r: seq<string>)
    ensures |r| >= |languages|
    ensures languages == [] <==> r == []
  {
    if languages == [] then []
    else LangItem(field, languages[0], current) + LangItems(field, languages[1..], current)
  }

  /** The text that replaces codb_lang_all(field). */
  function LangAllText(env: Env, field: string): string {
    Join(", ", LangItems(field, env.languages, env.current))
  }

  /** The suffix codb_lang adds: "_" and the current language, or nothing when it is empty. */
  function LangSuffix(current: string): string {
    if EmptyString(current) then "" else "_" + current
  }

  /** The single-token replacements of the second pass. */
  function Replacement(env: Env, table: bool, arg: string): string {
    if table then "`" + env.database + "`.`" + env.prefix + arg + "`"
    else "`" + arg + LangSuffix(env.current) + "`"
  }

  /** preg_replace of one single-token pattern over the whole text. */
  function ReplaceTokens(env: Env, s: string, table: bool): string
    decreases |s|
  {
    if |s| == 0 then ""
    else match MatchAt(s, if table then TableOpen else LangOpen, table)
      case Some(t) => Replacement(env, table, t.arg) + ReplaceTokens(env, s[t.len..], table)
      case None => [s[0]] + ReplaceTokens(env, s[1..], table)
  }

  /** One codb_lang_all token after another, each replaced everywhere in the current text. */
  function ReplaceLangAll(env: Env, s: string, fields: seq<string>): string
    decreases |fields|
  {
    if fields == [] then s
    else ReplaceLangAll(env, StrReplace(LangAllOpen + fields[0] + ")", LangAllText(env, fields[0]), s), fields[1..])
  }

  /** The first pass. */
  function ExpandLangAll(env: Env, s: string): string {
    if Occurs(s, LangAllOpen) then ReplaceLangAll(env, s, LangAllMatches(s)) else s
  }

  /** The second pass: codb_lang first, then codb_table over its result. */
  function ExpandSingle(env: Env, s: string): string {
    ReplaceTokens(env, ReplaceTokens(env, s, false), true)
  }

  /**
   * processMacros: empty text is returned as it is, and so is text that
   * contains none of the three opening texts.
   */
  function Rewrite(env: Env, s: string): (r: string)
    ensures !Occurs(s, LangAllOpen) && !Occurs(s, LangOpen) && !Occurs(s, TableOpen) ==> r == s
  {
    if EmptyString(s) then s
    else
      PassesWithoutTokens(env, s);
      ExpandSingle(env, ExpandLangAll(env, s))
  }

  /** The two passes leave text without any of the three opening texts alone. */
  lemma PassesWithoutTokens(env: Env, s: string)
    ensures !Occurs(s, LangAllOpen) && !Occurs(s, LangOpen) && !Occurs(s, TableOpen) ==>
      ExpandSingle(env, ExpandLangAll(env, s)) == s
  {
    if !Occurs(s, LangAllOpen) && !Occurs(s, LangOpen) && !Occurs(s, TableOpen) {
      ReplaceTokensAbsent(env, s, false);
      ReplaceTokensAbsent(env, s, true);
    }
  }

  // ---------------------------------------------------------------------------
  // Properties

  lemma OccursHere(s: string, p: string)
    requires HasPrefix(s, p)
    ensures Occurs(s, p)
  {
    assert OccursAt(s, p, 0);
  }

  lemma OccursLater(s: string, p: string)
    requires |s| > 0 && Occurs(s[1..], p)
    ensures Occurs(s, p)
  {
    var i :| 0 <= i <= |s[1..]| - |p| && OccursAt(s[1..], p, i);
    assert s[i + 1..i + 1 + |p|] == s[1..][i..i + |p|];
    assert OccursAt(s, p, i + 1);
  }

  /** Without its opening text, a single-token replacement leaves the text alone. */
  lemma {:induction false} ReplaceTokensAbsent(env: Env, s: string, table: bool)
    requires !Occurs(s, if table then TableOpen else LangOpen)
    ensures ReplaceTokens(env, s, table) == s
    decreases |s|
  {
    var open := if table then TableOpen else LangOpen;
    if |s| > 0 {
      if HasPrefix(s, open) { OccursHere(s, open); }
      if Occurs(s[1..], open) { OccursLater(s, open); }
      ReplaceTokensAbsent(env, s[1..], table);
    }
  }

  predicate NoParen(s: string) {
    forall i :: 0 <= i < |s| ==> s[i] != '('
  }

  lemma NoParenAbsent(s: string, p: string, k: nat)
    requires NoParen(s) && k < |p| && p[k] == '('
    ensures !Occurs(s, p)
  {
    forall i | 0 <= i <= |s| - |p|
      ensures s[i + k] == '(' ==> !OccursAt(s, p, i)
    {
    }
  }

  /** Where a text has a single "(" an occurrence of p is pinned to one position. */
  lemma ParenPins(s: string, p: string, k: nat, j: int)
    requires k < |p| && p[k] == '('
    requires forall x :: 0 <= x < |s| && s[x] == '(' ==> x == j
    ensures forall i :: OccursAt(s, p, i) ==> i == j - k
  {
    forall i | OccursAt(s, p, i)
      ensures i == j - k
    {
      assert s[i + k] == s[i..i + |p|][k];
    }
  }

  lemma ExpandSingleWithoutParen(env: Env, s: string)
    requires NoParen(s)
    ensures ExpandSingle(env, s) == s
  {
    NoParenAbsent(s, LangOpen, 9);
    NoParenAbsent(s, TableOpen, 10);
    ReplaceTokensAbsent(env, s, false);
    ReplaceTokensAbsent(env, s, true);
  }

  /** Text without an opening parenthesis holds no token, so it is returned unchanged. */
  lemma RewriteWithoutParen(env: Env, s: string)
    requires NoParen(s)
    ensures Rewrite(env, s) == s
  {
    NoParenAbsent(s, LangAllOpen, 13);
    NoParenAbsent(s, LangOpen, 9);
    NoParenAbsent(s, TableOpen, 10);
  }

  lemma {:induction false} NoParenJoin(glue: string, parts: seq<string>)
    requires NoParen(glue)
    requires forall i :: 0 <= i < |parts| ==> NoParen(parts[i])
    ensures NoParen(Join(glue, parts))
  {
    if |parts| > 1 {
      NoParenJoin(glue, parts[1..]);
    }
  }

  lemma {:induction false} NoParenLangItems(field: string, languages: seq<string>, current: string)
    requires NoParen(field)
    requires forall i :: 0 <= i < |languages| ==> NoParen(languages[i])
    ensures forall i :: 0 <= i < |LangItems(field, languages, current)| ==> NoParen(LangItems(field, languages, current)[i])
  {
    if languages != [] {
      NoParenLangItems(field, languages[1..], current);
    }
  }

  /** The whole of a one-token text "codb_table(x)". */
  lemma {:induction false} StrReplaceWhole(search: string, rep: string)
    requires |search| > 0
    ensures StrReplace(search, rep, search) == rep
  {
    assert search[|search|..] == "";
  }

  /** The run of a word followed by ")" stops at the ")". */
  lemma RunOfWord(w: string, dash: bool)
    requires AllAllowed(w, dash)
    ensures Run(w + ")", dash) == |w|
  {
    var t := w + ")";
    assert forall i :: 0 <= i < |w| ==> t[i] == w[i];
    assert !Allowed(t[|w|], dash);
  }

  lemma TokenText(open: string, w: string, dash: bool)
    requires |w| > 0 && AllAllowed(w, dash)
    ensures MatchAt(open + w + ")", open, dash) == Some(Token(|open| + |w| + 1, w))
  {
    var s := open + w + ")";
    assert s[..|open|] == open;
    assert s[|open|..] == w + ")";
    RunOfWord(w, dash);
    assert s[|open|..|open| + |w|] == w;
    assert s[|open| + |w|] == ')';
  }

  /** codb_table(x) becomes `db`.`prefix x`. */
  lemma RewriteTable(env: Env, w: string)
    requires |w| > 0 && AllAllowed(w, true)
    ensures Rewrite(env, TableOpen + w + ")") == "`" + env.database + "`.`" + env.prefix + w + "`"
  {
    var s := TableOpen + w + ")";
    assert forall i :: 0 <= i < |w| ==> w[i] != '(';
    assert forall i :: 0 <= i < |s| && s[i] == '(' ==> i == 10;
    ParenPins(s, LangAllOpen, 13, 10);
    ParenPins(s, LangOpen, 9, 10);
    assert s[1] == 'o';
    assert !OccursAt(s, LangOpen, 1) by { assert s[1..1 + |LangOpen|][0] == s[1]; }
    assert !Occurs(s, LangAllOpen);
    assert !Occurs(s, LangOpen);
    ReplaceTokensAbsent(env, s, false);
    TokenText(TableOpen, w, true);
    assert s[|s|..] == "";
    assert ReplaceTokens(env, s, true) == Replacement(env, true, w) + ReplaceTokens(env, "", true);
  }

  /** codb_lang(x) becomes `x_current`, or `x` when no current language is set. */
  lemma RewriteLang(env: Env, w: string)
    requires |w| > 0 && AllAllowed(w, false)
    requires NoParen(env.current)
    ensures Rewrite(env, LangOpen + w + ")") == "`" + w + LangSuffix(env.current) + "`"
  {
    var s := LangOpen + w + ")";
    assert forall i :: 0 <= i < |w| ==> w[i] != '(';
    assert forall i :: 0 <= i < |s| && s[i] == '(' ==> i == 9;
    ParenPins(s, LangAllOpen, 13, 9);
    TokenText(LangOpen, w, false);
    assert s[|s|..] == "";
    var out := Replacement(env, false, w);
    assert ReplaceTokens(env, s, false) == out;
    assert NoParen(out);
    NoParenAbsent(out, TableOpen, 10);
    ReplaceTokensAbsent(env, out, true);
  }

  lemma ExpandLangAllToken(env: Env, w: string)
    requires |w| > 0 && AllAllowed(w, false)
    ensures ExpandLangAll(env, LangAllOpen + w + ")") == LangAllText(env, w)
  {
    var s := LangAllOpen + w + ")";
    TokenText(LangAllOpen, w, false);
    OccursHere(s, LangAllOpen);
    assert s[|s|..] == "";
    assert LangAllMatches(s) == [w] + LangAllMatches("");
    StrReplaceWhole(s, LangAllText(env, w));
    assert ReplaceLangAll(env, s, [w]) == ReplaceLangAll(env, LangAllText(env, w), []);
  }

  lemma NoParenLangAllText(env: Env, w: string)
    requires AllAllowed(w, false)
    requires forall i :: 0 <= i < |env.languages| ==> NoParen(env.languages[i])
    ensures NoParen(LangAllText(env, w))
  {
    assert NoParen(w);
    NoParenLangItems(w, env.languages, env.current);
    NoParenJoin(", ", LangItems(w, env.languages, env.current));
  }

  /**
   * codb_lang_all(x) becomes the comma-separated list of x's columns in
   * language order, the current language's column followed by its alias.
   */
  lemma RewriteLangAll(env: Env, w: string)
    requires |w| > 0 && AllAllowed(w, false)
    requires forall i :: 0 <= i < |env.languages| ==> NoParen(env.languages[i])
    ensures Rewrite(env, LangAllOpen + w + ")") == LangAllText(env, w)
  {
    var s := LangAllOpen + w + ")";
    assert |s| > 1;
    ExpandLangAllToken(env, w);
    NoParenLangAllText(env, w);
    ExpandSingleWithoutParen(env, LangAllText(env, w));
  }

  /** The first pass finds nothing in a text without the codb_lang_all opening. */
  lemma {:induction false} LangAllMatchesAbsent(s: string)
    requires !Occurs(s, LangAllOpen)
    ensures LangAllMatches(s) == []
    decreases |s|
  {
    if |s| > 0 {
      if HasPrefix(s, LangAllOpen) { OccursHere(s, LangAllOpen); }
      if Occurs(s[1..], LangAllOpen) { OccursLater(s, LangAllOpen); }
      LangAllMatchesAbsent(s[1..]);
    }
  }

  /**
   * An empty language list turns codb_lang_all(x) into nothing: the empty
   * case of the column list, recorded on its own although it follows from
   * LangAllText's definition.
   */
  lemma LangAllNoLanguages(env: Env, w: string)
    requires env.languages == []
    ensures LangAllText(env, w) == ""
  {
  }

  /** Each language contributes one column, and the current one a second, aliased copy. */
  lemma {:induction false} LangItemsCount(field: string, languages: seq<string>, current: string)
    ensures |LangItems(field, languages, current)| == |languages| + Count(languages, current)
  {
    if languages != [] {
      LangItemsCount(field, languages[1..], current);
    }
  }

  function Count(xs: seq<string>, x: string): nat {
    if xs == [] then 0 else (if xs[0] == x then 1 else 0) + Count(xs[1..], x)
  }

  /** Listing one more language appends that language's columns. */
  lemma {:induction false} LangItemsAppend(field: string, languages: seq<string>, lang: string, current: string)
    ensures LangItems(field, languages + [lang], current)
      == LangItems(field, languages, current) + LangItem(field, lang, current)
  {
    if languages == [] {
      assert [] + [lang] == [lang];
    } else {
      assert (languages + [lang])[1..] == languages[1..] + [lang];
      LangItemsAppend(field, languages[1..], lang, current);
    }
  }
}
