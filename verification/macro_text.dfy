/**
 * What processMacros does to whole statements: a query is plain text with
 * tokens in it ("DESCRIBE codb_table(news)", "SELECT codb_lang_all(title)
 * FROM codb_table(news) WHERE codb_lang(title) != ''"). A query is spelled
 * from pieces (plain text in which no token can start, and codb_table,
 * codb_lang and codb_lang_all tokens), and the rewrite is proved to
 * replace every token where it stands and to keep the text around it.
 */
module MacroText {
  import opened Common
  import opened Macros

  datatype Piece =
    | Plain(text: string)
    | TableToken(table: string)
    | LangToken(field: string)
    | LangAllToken(field: string)

  function PieceText(p: Piece): string {
    match p
    case Plain(t) => t
    case TableToken(w) => TableOpen + w + ")"
    case LangToken(w) => LangOpen + w + ")"
    case LangAllToken(w) => LangAllOpen + w + ")"
  }

  /** The query text the pieces spell, left to right. */
  function Spell(ps: seq<Piece>): string
    decreases |ps|
  {
    if ps == [] then "" else PieceText(ps[0]) + Spell(ps[1..])
  }

  /**
   * What each piece should become: plain text stays, codb_table(x) names
   * `db`.`prefix x`, codb_lang(x) names `x_current` (or `x` without a
   * current language) and codb_lang_all(x) lists x's columns.
   */
  function PieceResult(env: Env, p: Piece): string {
    match p
    case Plain(t) => t
    case TableToken(w) => "`" + env.database + "`.`" + env.prefix + w + "`"
    case LangToken(w) => "`" + w + LangSuffix(env.current) + "`"
    case LangAllToken(w) => LangAllText(env, w)
  }

  function Expected(env: Env, ps: seq<Piece>): string
    decreases |ps|
  {
    if ps == [] then "" else PieceResult(env, ps[0]) + Expected(env, ps[1..])
  }

  /** Plain text is inert; a token's argument is a non-empty run its pattern accepts. */
  predicate WellFormed(p: Piece) {
    match p
    case Plain(t) => Inert(t)
    case TableToken(w) => |w| > 0 && AllAllowed(w, true)
    case LangToken(w) => |w| > 0 && AllAllowed(w, false)
    case LangAllToken(w) => |w| > 0 && AllAllowed(w, false)
  }

  predicate AllWellFormed(ps: seq<Piece>) {
    forall i :: 0 <= i < |ps| ==> WellFormed(ps[i])
  }

  predicate LanguagesWithoutParen(env: Env) {
    forall i :: 0 <= i < |env.languages| ==> NoParen(env.languages[i])
  }

  /**
   * What a token's replacement needs so that the replacements after it
   * leave it alone: codb_lang a current language without "(", and
   * codb_lang_all languages without "(".
   */
  predicate Fits(env: Env, p: Piece) {
    match p
    case LangToken(_) => NoParen(env.current)
    case LangAllToken(_) => LanguagesWithoutParen(env)
    case _ => true
  }

  predicate AllFit(env: Env, ps: seq<Piece>) {
    forall i :: 0 <= i < |ps| ==> Fits(env, ps[i])
  }

  predicate NoLangAll(ps: seq<Piece>) {
    forall i :: 0 <= i < |ps| ==> !ps[i].LangAllToken?
  }

  // ---------------------------------------------------------------------------
  // Scanning past text in which no token starts

  function Opening(table: bool): string {
    if table then TableOpen else LangOpen
  }

  predicate NoneStartsIn(a: string, t: string, open: string) {
    forall i :: 0 <= i < |a| ==> !OccursAt(a + t, open, i)
  }

  lemma NoneStartsInTail(a: string, t: string, open: string)
    requires |a| > 0 && NoneStartsIn(a, t, open)
    ensures !OccursAt(a + t, open, 0)
    ensures NoneStartsIn(a[1..], t, open)
    ensures (a + t)[1..] == a[1..] + t
  {
    var s := a + t;
    assert s[1..] == a[1..] + t;
    forall i | 0 <= i < |a[1..]|
      ensures !OccursAt(a[1..] + t, open, i)
    {
      assert !OccursAt(s, open, i + 1);
      if i + |open| <= |a[1..] + t| {
        assert s[i + 1..i + 1 + |open|] == (a[1..] + t)[i..i + |open|];
      }
    }
  }

  /** A single-token pass copies text in which no token starts. */
  lemma {:induction false} ReplaceTokensSkip(env: Env, a: string, t: string, table: bool)
    requires NoneStartsIn(a, t, Opening(table))
    ensures ReplaceTokens(env, a + t, table) == a + ReplaceTokens(env, t, table)
    decreases |a|
  {
    if |a| > 0 {
      var s := a + t;
      var open := Opening(table);
      NoneStartsInTail(a, t, open);
      if |s| >= |open| {
        assert s[0..|open|] == s[..|open|];
      }
      assert MatchAt(s, open, table).None?;
      ReplaceTokensSkip(env, a[1..], t, table);
      var rest := ReplaceTokens(env, t, table);
      assert [s[0]] + (a[1..] + rest) == ([s[0]] + a[1..]) + rest;
      assert [s[0]] + a[1..] == a;
      assert ReplaceTokens(env, s, table) == [s[0]] + ReplaceTokens(env, s[1..], table);
    } else {
      assert a + t == t;
    }
  }

  /** The first pass's matcher skips text in which no codb_lang_all token starts. */
  lemma {:induction false} LangAllMatchesSkip(a: string, t: string)
    requires NoneStartsIn(a, t, LangAllOpen)
    ensures LangAllMatches(a + t) == LangAllMatches(t)
    decreases |a|
  {
    if |a| > 0 {
      var s := a + t;
      NoneStartsInTail(a, t, LangAllOpen);
      if |s| >= |LangAllOpen| {
        assert s[0..|LangAllOpen|] == s[..|LangAllOpen|];
      }
      assert MatchAt(s, LangAllOpen, false).None?;
      LangAllMatchesSkip(a[1..], t);
      assert LangAllMatches(s) == LangAllMatches(s[1..]);
    } else {
      assert a + t == t;
    }
  }

  /** str_replace copies text in which the searched text does not start. */
  lemma {:induction false} StrReplaceSkip(search: string, rep: string, a: string, t: string)
    requires |search| > 0 && NoneStartsIn(a, t, search)
    ensures StrReplace(search, rep, a + t) == a + StrReplace(search, rep, t)
    decreases |a|
  {
    if |a| > 0 {
      var s := a + t;
      NoneStartsInTail(a, t, search);
      if |s| >= |search| {
        assert s[..|search|] != search by {
          assert s[0..|search|] == s[..|search|];
        }
        StrReplaceSkip(search, rep, a[1..], t);
        var rest := StrReplace(search, rep, t);
        assert [s[0]] + (a[1..] + rest) == ([s[0]] + a[1..]) + rest;
        assert [s[0]] + a[1..] == a;
        assert StrReplace(search, rep, s) == [s[0]] + StrReplace(search, rep, s[1..]);
      }
    } else {
      assert a + t == t;
    }
  }

  /** str_replace leaves a text without the searched text alone. */
  lemma {:induction false} StrReplaceAbsent(search: string, rep: string, s: string)
    requires |search| > 0 && !Occurs(s, search)
    ensures StrReplace(search, rep, s) == s
    decreases |s|
  {
    if |s| >= |search| {
      assert s[..|search|] != search by {
        assert s[0..|search|] == s[..|search|];
        assert !OccursAt(s, search, 0);
      }
      if Occurs(s[1..], search) { OccursLater(s, search); }
      StrReplaceAbsent(search, rep, s[1..]);
    }
  }

  // ---------------------------------------------------------------------------
  // One token

  /** The run of an argument stops at the ")" that follows it, whatever comes next. */
  lemma RunOfArgument(w: string, b: string, dash: bool)
    requires AllAllowed(w, dash)
    ensures Run(w + ")" + b, dash) == |w|
  {
    var t := w + ")" + b;
    assert forall i :: 0 <= i < |w| ==> t[i] == w[i];
    assert t[|w|] == ')';
    assert !Allowed(t[|w|], dash);
  }

  /** A token at the start of a text is matched whole, whatever follows it. */
  lemma TokenFollowed(open: string, w: string, b: string, dash: bool)
    requires |w| > 0 && AllAllowed(w, dash)
    ensures MatchAt(open + w + ")" + b, open, dash) == Some(Token(|open| + |w| + 1, w))
  {
    var s := open + w + ")" + b;
    assert s[..|open|] == open;
    assert s[|open|..] == w + ")" + b;
    RunOfArgument(w, b, dash);
    assert s[|open|..|open| + |w|] == w;
    assert s[|open| + |w|] == ')';
  }

  /** A single-token pass replaces the token at the start and goes on after it. */
  lemma ReplaceTokensToken(env: Env, w: string, b: string, table: bool)
    requires |w| > 0 && AllAllowed(w, table)
    ensures ReplaceTokens(env, Opening(table) + w + ")" + b, table) == Replacement(env, table, w) + ReplaceTokens(env, b, table)
  {
    var s := Opening(table) + w + ")" + b;
    TokenFollowed(Opening(table), w, b, table);
    assert s[|Opening(table)| + |w| + 1..] == b;
  }

  /** A token's only "(" is the one that ends its opening. */
  lemma TokenParen(open: string, w: string, dash: bool)
    requires |open| > 0 && NoParen(open[..|open| - 1]) && AllAllowed(w, dash)
    ensures var s := open + w + ")";
      forall k :: 0 <= k < |s| && k != |open| - 1 ==> s[k] != '('
  {
    var s := open + w + ")";
    forall k | 0 <= k < |s| && k != |open| - 1
      ensures s[k] != '('
    {
      if k < |open| - 1 {
        assert s[k] == open[..|open| - 1][k];
      } else if k < |open| + |w| {
        assert s[k] == w[k - |open|];
        assert Allowed(w[k - |open|], dash);
      } else {
        assert s[k] == ')';
      }
    }
  }

  // ---------------------------------------------------------------------------
  // Where a token can start

  /** One of the three token openings. */
  predicate IsOpening(open: string) {
    open == LangOpen || open == TableOpen || open == LangAllOpen
  }

  /**
   * How far into a text a "(" after the character c must stand if it is
   * to close a token opening there: the openings end with "g(", "e(" and
   * "l(", so a "(" after any other character closes none.
   */
  function Reach(c: char): nat {
    if c == 'g' then 9 else if c == 'e' then 10 else if c == 'l' then 13 else 1
  }

  /** Every "(" of s stands far enough in to close whatever opening its predecessor could end. */
  predicate ParensReach(s: string) {
    forall p :: 0 <= p < |s| && s[p] == '(' ==> p >= 1 && p >= Reach(s[p - 1])
  }

  /**
   * Plain text in which no token can start: it holds no opening, and no
   * opening can end in it with text that comes before it.
   */
  predicate Inert(t: string) {
    && ParensReach(t)
    && !Occurs(t, LangOpen) && !Occurs(t, TableOpen) && !Occurs(t, LangAllOpen)
  }

  lemma OpeningEnd(open: string)
    requires IsOpening(open)
    ensures |open| >= 10 && open[|open| - 1] == '(' && Reach(open[|open| - 2]) == |open| - 1
  {
  }

  /** Text without "(" is inert. */
  lemma NoParenInert(t: string)
    requires NoParen(t)
    ensures Inert(t)
  {
    NoParenAbsent(t, LangOpen, 9);
    NoParenAbsent(t, TableOpen, 10);
    NoParenAbsent(t, LangAllOpen, 13);
  }

  lemma ParensReachConcat(x: string, y: string)
    requires ParensReach(x) && ParensReach(y)
    ensures ParensReach(x + y)
  {
    var s := x + y;
    forall p | 0 <= p < |s| && s[p] == '('
      ensures p >= 1 && p >= Reach(s[p - 1])
    {
      if p < |x| {
        assert s[p] == x[p];
        assert s[p - 1] == x[p - 1];
      } else {
        var q := p - |x|;
        assert s[p] == y[q];
        assert s[p - 1] == y[q - 1];
      }
    }
  }

  /**
   * No token of the kind open starts in x when x holds none and the text
   * after x is ParensReach: the opening's "(" would fall in that text too
   * early for the character before it.
   */
  lemma NoneStartsBefore(x: string, t: string, open: string)
    requires IsOpening(open) && !Occurs(x, open) && ParensReach(t)
    ensures NoneStartsIn(x, t, open)
  {
    var s := x + t;
    var k := |open| - 1;
    OpeningEnd(open);
    forall i | 0 <= i < |x|
      ensures !OccursAt(s, open, i)
    {
      if i + |open| <= |s| {
        if i + |open| <= |x| {
          assert s[i..i + |open|] == x[i..i + |open|];
          assert !OccursAt(x, open, i);
        } else {
          var q := i + k - |x|;
          assert s[i..i + |open|][k] == t[q];
          if t[q] == '(' {
            assert s[i..i + |open|][k - 1] == t[q - 1];
          }
        }
      }
    }
  }

  /** A token holds no opening of another kind, and its "(" stands where its opening needs it. */
  lemma TokenMisses(open: string, w: string, dash: bool, other: string)
    requires IsOpening(open) && IsOpening(other) && AllAllowed(w, dash)
    ensures ParensReach(open + w + ")")
    ensures other != open ==> !Occurs(open + w + ")", other)
  {
    var tok := open + w + ")";
    OpeningEnd(open);
    OpeningEnd(other);
    assert NoParen(open[..|open| - 1]);
    TokenParen(open, w, dash);
    assert tok[|open| - 2] == open[|open| - 2];
    if other != open {
      var k := |other| - 1;
      forall i | 0 <= i <= |tok| - |other|
        ensures !OccursAt(tok, other, i)
      {
        assert tok[i..i + |other|][k] == tok[i + k];
        assert tok[i..i + |other|][k - 1] == tok[i + k - 1];
      }
    }
  }

  /** A codb_lang_all token without its first character holds no codb_lang_all opening. */
  lemma ArgumentMissesLangAll(w: string)
    requires AllAllowed(w, false)
    ensures var tok := LangAllOpen + w + ")";
      |tok| > 14 && tok[..14] == LangAllOpen && !Occurs(tok[1..], LangAllOpen)
  {
    var tok := LangAllOpen + w + ")";
    assert NoParen(LangAllOpen[..13]);
    TokenParen(LangAllOpen, w, false);
    assert tok[..14] == LangAllOpen;
    var u := tok[1..];
    forall i | 0 <= i <= |u| - 14
      ensures !OccursAt(u, LangAllOpen, i)
    {
      assert u[i..i + 14][13] == tok[i + 14];
    }
  }

  /** What a well-formed piece's text allows of the tokens around it. */
  lemma PieceMisses(p: Piece)
    requires WellFormed(p)
    ensures ParensReach(PieceText(p))
    ensures !p.LangToken? ==> !Occurs(PieceText(p), LangOpen)
    ensures !p.TableToken? ==> !Occurs(PieceText(p), TableOpen)
    ensures !p.LangAllToken? ==> !Occurs(PieceText(p), LangAllOpen)
    ensures !p.Plain? ==> |PieceText(p)| >= 12
  {
    match p
    case Plain(t) =>
    case TableToken(w) =>
      TokenMisses(TableOpen, w, true, LangOpen);
      TokenMisses(TableOpen, w, true, LangAllOpen);
    case LangToken(w) =>
      TokenMisses(LangOpen, w, false, TableOpen);
      TokenMisses(LangOpen, w, false, LangAllOpen);
    case LangAllToken(w) =>
      TokenMisses(LangAllOpen, w, false, LangOpen);
      TokenMisses(LangAllOpen, w, false, TableOpen);
  }

  /** A spelled query is ParensReach. */
  lemma {:induction false} SpellReach(ps: seq<Piece>)
    requires AllWellFormed(ps)
    ensures ParensReach(Spell(ps))
    decreases |ps|
  {
    if ps != [] {
      SpellReach(ps[1..]);
      PieceMisses(ps[0]);
      ParensReachConcat(PieceText(ps[0]), Spell(ps[1..]));
    }
  }

  // ---------------------------------------------------------------------------
  // The first pass: preg_match_all, then one str_replace per match

  /** Where the codb_lang_all opening does not start, no text beginning with it does. */
  lemma NoneStartsLonger(x: string, t: string, search: string)
    requires NoneStartsIn(x, t, LangAllOpen) && |search| >= 14 && search[..14] == LangAllOpen
    ensures NoneStartsIn(x, t, search)
  {
    var s := x + t;
    forall i | 0 <= i < |x|
      ensures !OccursAt(s, search, i)
    {
      if i + |search| <= |s| {
        assert !OccursAt(s, LangAllOpen, i);
        assert s[i..i + 14] != LangAllOpen;
        assert s[i..i + 14] == s[i..i + |search|][..14];
      }
    }
  }

  /** The arguments of the codb_lang_all tokens, left to right. */
  function LangAllFields(ps: seq<Piece>): seq<string>
    decreases |ps|
  {
    if ps == [] then []
    else (if ps[0].LangAllToken? then [ps[0].field] else []) + LangAllFields(ps[1..])
  }

  /** preg_match_all of the codb_lang_all pattern finds exactly the codb_lang_all tokens, in order. */
  lemma {:induction false} MatchesSpell(ps: seq<Piece>)
    requires AllWellFormed(ps)
    ensures LangAllMatches(Spell(ps)) == LangAllFields(ps)
    decreases |ps|
  {
    if ps != [] {
      var x := PieceText(ps[0]);
      var rest := Spell(ps[1..]);
      MatchesSpell(ps[1..]);
      if ps[0].LangAllToken? {
        var w := ps[0].field;
        TokenFollowed(LangAllOpen, w, rest, false);
        assert x + rest == LangAllOpen + w + ")" + rest;
        assert (x + rest)[|x|..] == rest;
      } else {
        PieceMisses(ps[0]);
        SpellReach(ps[1..]);
        NoneStartsBefore(x, rest, LangAllOpen);
        LangAllMatchesSkip(x, rest);
      }
    }
  }

  /** Every codb_lang_all token's argument is among the fields, and every field is a well-formed argument. */
  lemma {:induction false} LangAllFieldsCover(ps: seq<Piece>)
    requires AllWellFormed(ps)
    ensures forall k :: 0 <= k < |LangAllFields(ps)| ==> |LangAllFields(ps)[k]| > 0 && AllAllowed(LangAllFields(ps)[k], false)
    ensures forall i :: 0 <= i < |ps| && ps[i].LangAllToken? ==> ps[i].field in LangAllFields(ps)
    decreases |ps|
  {
    if ps != [] {
      LangAllFieldsCover(ps[1..]);
      var head := if ps[0].LangAllToken? then [ps[0].field] else [];
      assert LangAllFields(ps) == head + LangAllFields(ps[1..]);
      forall i | 0 < i < |ps| && ps[i].LangAllToken?
        ensures ps[i].field in LangAllFields(ps)
      {
        assert ps[1..][i - 1] == ps[i];
      }
    }
  }

  /** The first pass runs str_replace for the fields preg_match_all found. */
  lemma FirstPassFields(env: Env, ps: seq<Piece>)
    requires AllWellFormed(ps)
    ensures ExpandLangAll(env, Spell(ps)) == ReplaceLangAll(env, Spell(ps), LangAllFields(ps))
  {
    MatchesSpell(ps);
    if !Occurs(Spell(ps), LangAllOpen) {
      LangAllMatchesAbsent(Spell(ps));
    }
  }

  /** The pieces after str_replace of codb_lang_all(f): each such token has become plain text. */
  function Subst(env: Env, ps: seq<Piece>, f: string): seq<Piece> {
    seq(|ps|, i requires 0 <= i < |ps| =>
      if ps[i] == LangAllToken(f) then Plain(LangAllText(env, f)) else ps[i])
  }

  /** The pieces after str_replace of every field in turn. */
  function SubstAll(env: Env, ps: seq<Piece>, fs: seq<string>): seq<Piece>
    decreases |fs|
  {
    if fs == [] then ps else SubstAll(env, Subst(env, ps, fs[0]), fs[1..])
  }

  /** str_replace past a piece other than the searched token. */
  lemma StrReplacePast(env: Env, x: string, t: string, f: string)
    requires |f| > 0 && AllAllowed(f, false)
    requires NoneStartsIn(x, t, LangAllOpen + f + ")")
    ensures StrReplace(LangAllOpen + f + ")", LangAllText(env, f), x + t) == x + StrReplace(LangAllOpen + f + ")", LangAllText(env, f), t)
  {
    StrReplaceSkip(LangAllOpen + f + ")", LangAllText(env, f), x, t);
  }

  /** A codb_lang_all token differs from one with another argument, whatever follows it. */
  lemma OtherArgument(f: string, g: string, t: string)
    requires |f| > 0 && AllAllowed(f, false) && |g| > 0 && AllAllowed(g, false) && f != g
    ensures !OccursAt((LangAllOpen + g + ")") + t, LangAllOpen + f + ")", 0)
  {
    var tokf := LangAllOpen + f + ")";
    var tokg := LangAllOpen + g + ")";
    var s := tokg + t;
    if |tokf| <= |s| {
      var u := s[..|tokf|];
      if |f| < |g| {
        assert u[14 + |f|] == g[|f|];
        assert Allowed(g[|f|], false);
        assert tokf[14 + |f|] == ')';
      } else if |f| > |g| {
        assert u[14 + |g|] == ')';
        assert Allowed(f[|g|], false);
        assert tokf[14 + |g|] == f[|g|];
      } else {
        assert u[14..14 + |f|] == g;
        assert tokf[14..14 + |f|] == f;
      }
    }
  }

  lemma NoneStartsInCons(x: string, t: string, search: string)
    requires |x| > 0 && !OccursAt(x + t, search, 0) && NoneStartsIn(x[1..], t, search)
    ensures NoneStartsIn(x, t, search)
  {
    var s := x + t;
    assert s[1..] == x[1..] + t;
    forall i | 1 <= i < |x|
      ensures !OccursAt(s, search, i)
    {
      var u := x[1..] + t;
      assert !OccursAt(u, search, i - 1);
      if i + |search| <= |s| {
        assert u[i - 1..i - 1 + |search|] != search;
        assert s[i..i + |search|] == u[i - 1..i - 1 + |search|];
      }
    }
  }

  /** str_replace of codb_lang_all(f) passes over a codb_lang_all token with another argument. */
  lemma NoneStartsInOtherToken(f: string, g: string, t: string)
    requires |f| > 0 && AllAllowed(f, false) && |g| > 0 && AllAllowed(g, false) && f != g
    requires ParensReach(t)
    ensures NoneStartsIn(LangAllOpen + g + ")", t, LangAllOpen + f + ")")
  {
    var tokg := LangAllOpen + g + ")";
    var tokf := LangAllOpen + f + ")";
    ArgumentMissesLangAll(g);
    ArgumentMissesLangAll(f);
    NoneStartsBefore(tokg[1..], t, LangAllOpen);
    NoneStartsLonger(tokg[1..], t, tokf);
    OtherArgument(f, g, t);
    NoneStartsInCons(tokg, t, tokf);
  }

  /** str_replace of codb_lang_all(f) at a codb_lang_all(f) token. */
  lemma StrReplaceHere(env: Env, f: string, t: string)
    requires |f| > 0
    ensures StrReplace(LangAllOpen + f + ")", LangAllText(env, f), (LangAllOpen + f + ")") + t)
      == LangAllText(env, f) + StrReplace(LangAllOpen + f + ")", LangAllText(env, f), t)
  {
    var tok := LangAllOpen + f + ")";
    var s := tok + t;
    assert s[..|tok|] == tok;
    assert s[|tok|..] == t;
  }

  /** str_replace of codb_lang_all(f) over a spelled query replaces exactly the codb_lang_all(f) tokens. */
  lemma {:induction false} StrReplaceSpell(env: Env, ps: seq<Piece>, f: string)
    requires AllWellFormed(ps) && |f| > 0 && AllAllowed(f, false)
    ensures StrReplace(LangAllOpen + f + ")", LangAllText(env, f), Spell(ps)) == Spell(Subst(env, ps, f))
    decreases |ps|
  {
    if ps != [] {
      var tokf := LangAllOpen + f + ")";
      var x := PieceText(ps[0]);
      var rest := Spell(ps[1..]);
      StrReplaceSpell(env, ps[1..], f);
      var qs := Subst(env, ps, f);
      assert qs[1..] == Subst(env, ps[1..], f);
      assert Spell(qs) == PieceText(qs[0]) + Spell(qs[1..]);
      ArgumentMissesLangAll(f);
      SpellReach(ps[1..]);
      if ps[0] == LangAllToken(f) {
        StrReplaceHere(env, f, rest);
      } else {
        if ps[0].LangAllToken? {
          NoneStartsInOtherToken(f, ps[0].field, rest);
        } else {
          PieceMisses(ps[0]);
          NoneStartsBefore(x, rest, LangAllOpen);
          NoneStartsLonger(x, rest, tokf);
        }
        StrReplacePast(env, x, rest, f);
      }
    }
  }

  /** Replacing the codb_lang_all(f) tokens keeps the pieces well formed and their expected text. */
  lemma SubstShape(env: Env, ps: seq<Piece>, f: string)
    requires AllWellFormed(ps) && AllFit(env, ps)
    ensures AllWellFormed(Subst(env, ps, f)) && AllFit(env, Subst(env, ps, f))
  {
    var qs := Subst(env, ps, f);
    forall i | 0 <= i < |ps|
      ensures WellFormed(qs[i])
    {
      if ps[i] == LangAllToken(f) {
        assert Fits(env, ps[i]);
        NoParenLangAllText(env, f);
        NoParenInert(LangAllText(env, f));
      }
    }
  }

  lemma {:induction false} SubstExpected(env: Env, ps: seq<Piece>, f: string)
    ensures Expected(env, Subst(env, ps, f)) == Expected(env, ps)
    decreases |ps|
  {
    if ps != [] {
      SubstExpected(env, ps[1..], f);
      assert Subst(env, ps, f)[1..] == Subst(env, ps[1..], f);
    }
  }

  /**
   * str_replace for each field in turn leaves no codb_lang_all token whose
   * argument is among the fields, and keeps the expected text.
   */
  lemma {:induction false} SubstAllShape(env: Env, ps: seq<Piece>, fs: seq<string>)
    requires AllWellFormed(ps) && AllFit(env, ps)
    ensures |SubstAll(env, ps, fs)| == |ps|
    ensures AllWellFormed(SubstAll(env, ps, fs)) && AllFit(env, SubstAll(env, ps, fs))
    ensures Expected(env, SubstAll(env, ps, fs)) == Expected(env, ps)
    ensures forall i :: 0 <= i < |ps| && SubstAll(env, ps, fs)[i].LangAllToken? ==>
      ps[i].LangAllToken? && ps[i].field !in fs
    decreases |fs|
  {
    if fs != [] {
      var qs := Subst(env, ps, fs[0]);
      SubstShape(env, ps, fs[0]);
      SubstExpected(env, ps, fs[0]);
      SubstAllShape(env, qs, fs[1..]);
      forall i | 0 <= i < |ps| && SubstAll(env, ps, fs)[i].LangAllToken?
        ensures ps[i].LangAllToken? && ps[i].field !in fs
      {
        assert qs[i].LangAllToken? && qs[i].field !in fs[1..];
        assert fs == [fs[0]] + fs[1..];
      }
    }
  }

  /** One str_replace per field over a spelled query gives the spelling of SubstAll. */
  lemma {:induction false} ReplaceLangAllSpell(env: Env, ps: seq<Piece>, fs: seq<string>)
    requires AllWellFormed(ps) && AllFit(env, ps)
    requires forall k :: 0 <= k < |fs| ==> |fs[k]| > 0 && AllAllowed(fs[k], false)
    ensures ReplaceLangAll(env, Spell(ps), fs) == Spell(SubstAll(env, ps, fs))
    decreases |fs|
  {
    if fs != [] {
      StrReplaceSpell(env, ps, fs[0]);
      SubstShape(env, ps, fs[0]);
      ReplaceLangAllSpell(env, Subst(env, ps, fs[0]), fs[1..]);
    }
  }

  /**
   * The first pass over a spelled query: every codb_lang_all token becomes
   * its column list where it stands, and no codb_lang_all token is left.
   */
  lemma FirstPassPieces(env: Env, ps: seq<Piece>)
    requires AllWellFormed(ps) && AllFit(env, ps)
    ensures var qs := SubstAll(env, ps, LangAllFields(ps));
      && ExpandLangAll(env, Spell(ps)) == Spell(qs)
      && AllWellFormed(qs) && AllFit(env, qs) && NoLangAll(qs)
      && Expected(env, qs) == Expected(env, ps)
  {
    var fs := LangAllFields(ps);
    FirstPassFields(env, ps);
    LangAllFieldsCover(ps);
    ReplaceLangAllSpell(env, ps, fs);
    SubstAllShape(env, ps, fs);
  }

  // ---------------------------------------------------------------------------
  // The two replacements of the second pass, piece by piece

  /** The pieces after the codb_lang replacement: each codb_lang token has become its column. */
  function LangDone(env: Env, ps: seq<Piece>): seq<Piece> {
    seq(|ps|, i requires 0 <= i < |ps| =>
      if ps[i].LangToken? then Plain(PieceResult(env, ps[i])) else ps[i])
  }

  /** A codb_lang column holds no "(" when the current language holds none. */
  lemma LangColumnNoParen(env: Env, w: string)
    requires AllAllowed(w, false) && NoParen(env.current)
    ensures NoParen("`" + w + LangSuffix(env.current) + "`")
  {
    var col := "`" + w + LangSuffix(env.current) + "`";
    forall i | 0 <= i < |col|
      ensures col[i] != '('
    {
      if 1 <= i < 1 + |w| {
        assert col[i] == w[i - 1];
        assert Allowed(w[i - 1], false);
      } else if 1 + |w| <= i < |col| - 1 {
        assert col[i] == LangSuffix(env.current)[i - 1 - |w|];
      }
    }
  }

  lemma LangDoneShape(env: Env, ps: seq<Piece>)
    requires AllWellFormed(ps) && AllFit(env, ps) && NoLangAll(ps)
    ensures AllWellFormed(LangDone(env, ps)) && NoLangAll(LangDone(env, ps))
    ensures forall i :: 0 <= i < |ps| ==> !LangDone(env, ps)[i].LangToken?
  {
    forall i | 0 <= i < |ps| && ps[i].LangToken?
      ensures WellFormed(LangDone(env, ps)[i])
    {
      assert Fits(env, ps[i]);
      LangColumnNoParen(env, ps[i].field);
      NoParenInert(PieceResult(env, ps[i]));
    }
  }

  lemma {:induction false} LangDoneExpected(env: Env, ps: seq<Piece>)
    ensures Expected(env, LangDone(env, ps)) == Expected(env, ps)
    decreases |ps|
  {
    if ps != [] {
      LangDoneExpected(env, ps[1..]);
      assert LangDone(env, ps)[1..] == LangDone(env, ps[1..]);
    }
  }

  /** The codb_lang replacement turns the spelled pieces into the spelling of LangDone. */
  lemma {:induction false} LangPass(env: Env, ps: seq<Piece>)
    requires AllWellFormed(ps) && NoLangAll(ps)
    ensures ReplaceTokens(env, Spell(ps), false) == Spell(LangDone(env, ps))
    decreases |ps|
  {
    if ps != [] {
      var rest := Spell(ps[1..]);
      SpellReach(ps[1..]);
      PieceMisses(ps[0]);
      LangPass(env, ps[1..]);
      assert LangDone(env, ps)[1..] == LangDone(env, ps[1..]);
      match ps[0]
      case Plain(t) =>
        NoneStartsBefore(t, rest, LangOpen);
        ReplaceTokensSkip(env, t, rest, false);
      case TableToken(w) =>
        NoneStartsBefore(PieceText(ps[0]), rest, LangOpen);
        ReplaceTokensSkip(env, PieceText(ps[0]), rest, false);
      case LangToken(w) =>
        ReplaceTokensToken(env, w, rest, false);
    }
  }

  /** Without codb_lang and codb_lang_all tokens, the codb_table replacement gives the expected text. */
  lemma {:induction false} TablePass(env: Env, ps: seq<Piece>)
    requires AllWellFormed(ps) && NoLangAll(ps) && forall i :: 0 <= i < |ps| ==> !ps[i].LangToken?
    ensures ReplaceTokens(env, Spell(ps), true) == Expected(env, ps)
    decreases |ps|
  {
    if ps != [] {
      var rest := Spell(ps[1..]);
      SpellReach(ps[1..]);
      PieceMisses(ps[0]);
      TablePass(env, ps[1..]);
      match ps[0]
      case Plain(t) =>
        NoneStartsBefore(t, rest, TableOpen);
        ReplaceTokensSkip(env, t, rest, true);
      case TableToken(w) =>
        ReplaceTokensToken(env, w, rest, true);
    }
  }

  // ---------------------------------------------------------------------------
  // processMacros on a spelled query

  /** A spelled query of at most one character holds no token. */
  lemma {:induction false} ShortSpellIsPlain(env: Env, ps: seq<Piece>)
    requires AllWellFormed(ps) && |Spell(ps)| <= 1
    ensures Expected(env, ps) == Spell(ps)
    decreases |ps|
  {
    if ps != [] {
      PieceMisses(ps[0]);
      assert |Spell(ps)| == |PieceText(ps[0])| + |Spell(ps[1..])|;
      ShortSpellIsPlain(env, ps[1..]);
    }
  }

  /**
   * processMacros on a query made of plain text and any number of
   * codb_table, codb_lang and codb_lang_all tokens: every token is replaced
   * where it stands and the text around the tokens is kept.
   */
  lemma RewritePieces(env: Env, ps: seq<Piece>)
    requires AllWellFormed(ps) && AllFit(env, ps)
    ensures Rewrite(env, Spell(ps)) == Expected(env, ps)
  {
    var s := Spell(ps);
    if EmptyString(s) {
      ShortSpellIsPlain(env, ps);
    } else {
      FirstPassPieces(env, ps);
      var qs := SubstAll(env, ps, LangAllFields(ps));
      LangPass(env, qs);
      LangDoneShape(env, qs);
      LangDoneExpected(env, qs);
      TablePass(env, LangDone(env, qs));
    }
  }

  /** A token between two plain texts. */
  lemma Between(env: Env, a: string, tok: Piece, b: string)
    requires Inert(a) && Inert(b) && WellFormed(tok) && Fits(env, tok)
    ensures var ps := [Plain(a), tok, Plain(b)];
      && AllWellFormed(ps) && AllFit(env, ps)
      && Spell(ps) == a + PieceText(tok) + b
      && Expected(env, ps) == a + PieceResult(env, tok) + b
  {
    var ps := [Plain(a), tok, Plain(b)];
    assert ps[1..] == [tok, Plain(b)];
    assert ps[1..][1..] == [Plain(b)];
    assert [Plain(b)][1..] == [];
    assert Spell([Plain(b)]) == b + "" == b;
    assert Expected(env, [Plain(b)]) == b + "" == b;
    assert Spell(ps) == a + (PieceText(tok) + b);
    assert Expected(env, ps) == a + (PieceResult(env, tok) + b);
  }

  /** Any well-formed token inside a statement: its replacement in its place, the rest kept. */
  lemma RewriteIn(env: Env, a: string, tok: Piece, b: string)
    requires Inert(a) && Inert(b) && WellFormed(tok) && Fits(env, tok)
    ensures Rewrite(env, a + PieceText(tok) + b) == a + PieceResult(env, tok) + b
  {
    Between(env, a, tok, b);
    RewritePieces(env, [Plain(a), tok, Plain(b)]);
  }

  /** codb_table(x) inside a statement: `db`.`prefix x` in its place, the rest kept. */
  lemma RewriteTableIn(env: Env, a: string, w: string, b: string)
    requires Inert(a) && Inert(b) && |w| > 0 && AllAllowed(w, true)
    ensures Rewrite(env, a + (TableOpen + w + ")") + b) == a + ("`" + env.database + "`.`" + env.prefix + w + "`") + b
  {
    RewriteIn(env, a, TableToken(w), b);
  }

  /** codb_lang(x) inside a statement: `x_current` in its place, the rest kept. */
  lemma RewriteLangIn(env: Env, a: string, w: string, b: string)
    requires Inert(a) && Inert(b) && |w| > 0 && AllAllowed(w, false)
    requires NoParen(env.current)
    ensures Rewrite(env, a + (LangOpen + w + ")") + b) == a + ("`" + w + LangSuffix(env.current) + "`") + b
  {
    RewriteIn(env, a, LangToken(w), b);
  }

  /** codb_lang_all(x) inside a statement: the list of x's columns in its place, the rest kept. */
  lemma RewriteLangAllIn(env: Env, a: string, w: string, b: string)
    requires Inert(a) && Inert(b) && |w| > 0 && AllAllowed(w, false)
    requires LanguagesWithoutParen(env)
    ensures Rewrite(env, a + (LangAllOpen + w + ")") + b) == a + LangAllText(env, w) + b
  {
    RewriteIn(env, a, LangAllToken(w), b);
  }
}
