/** Patterns with the folders `(app)` and `[...path]`: punctuation of expressions that the translation does not escape,
    so that such a pattern never matches a file below the folder it names. */
module OwnRules {
  import opened Options
  import opened TestSelection
  import opened SuiteSelection
  import opened Sequences
  import opened Glob
  import E = OwnEdges

  // ------------------------------------------------------------------
  // Translating literal text
  // ------------------------------------------------------------------

  function Escape(c: char): string { if c == '.' then "\\." else [c] }

  function Escaped(w: string): string {
    if w == "" then "" else Escape(w[0]) + Escaped(w[1..])
  }

  lemma ReplaceCons(c: char, s: string, needle: string, fill: string)
    requires needle != "" && needle[0] != c
    ensures ReplaceAll([c] + s, needle, fill) == [c] + ReplaceAll(s, needle, fill)
  {
    assert ([c] + s)[0] == c;
    ReplaceMiss(c, s, needle, fill);
  }

  /** A text none of whose characters starts the needle stays. */
  lemma ReplaceEscape(c: char, s: string, needle: string, fill: string)
    requires needle != "" && needle[0] !in {c, '\\', '.'}
    ensures ReplaceAll(Escape(c) + s, needle, fill) == Escape(c) + ReplaceAll(s, needle, fill)
  {
    hide ReplaceAll;
    if c == '.' {
      assert "\\." + s == ['\\'] + (['.'] + s);
      ReplaceCons('\\', ['.'] + s, needle, fill);
      ReplaceCons('.', s, needle, fill);
      var all := ReplaceAll(s, needle, fill);
      assert "\\." + all == ['\\'] + (['.'] + all);
    } else {
      ReplaceCons(c, s, needle, fill);
    }
  }

  lemma ReplaceDot(c: char, s: string)
    ensures ReplaceAll([c] + s, ".", "\\.") == Escape(c) + ReplaceAll(s, ".", "\\.")
  {
    hide ReplaceAll;
    if c == '.' {
      assert [c] == ".";
      ReplaceHit(s, ".", "\\.");
    } else {
      ReplaceCons(c, s, ".", "\\.");
    }
  }

  lemma TranslateCons(c: char, y: string)
    requires c !in {'*', '\U{A7}'}
    ensures Translate([c] + y) == Escape(c) + Translate(y)
  {
    hide ReplaceAll;
    var s1 := ReplaceAll(y, ".", "\\.");
    var s2 := ReplaceAll(s1, "**", PLACEHOLDER);
    var s3 := ReplaceAll(s2, "*", "[^/]*");
    ReplaceDot(c, y);
    ReplaceEscape(c, s1, "**", PLACEHOLDER);
    ReplaceEscape(c, s2, "*", "[^/]*");
    assert PLACEHOLDER[0] == '\U{A7}';
    ReplaceEscape(c, s3, PLACEHOLDER, ".*");
  }

  lemma {:induction false} TranslateLiteral(a: string, y: string)
    requires '*' !in a && '\U{A7}' !in a
    ensures Translate(a + y) == Escaped(a) + Translate(y)
  {
    hide Translate, Escaped, Escape;
    EscapedUnfold(a);
    if a == "" {
      assert a + y == y && "" + Translate(y) == Translate(y);
    } else {
      HeadAndTail(a, y);
      TranslateLiteral(a[1..], y);
      TranslateCons(a[0], a[1..] + y);
      Associative(Escape(a[0]), Escaped(a[1..]), Translate(y));
    }
  }

  lemma EscapedUnfold(w: string)
    ensures Escaped(w) == if w == "" then "" else Escape(w[0]) + Escaped(w[1..])
  {
  }

  lemma HeadAndTail(a: string, y: string)
    requires a != ""
    ensures a + y == [a[0]] + (a[1..] + y) && a[0] in a && forall c :: c in a[1..] ==> c in a
  {
  }

  // ------------------------------------------------------------------
  // Parsing it
  // ------------------------------------------------------------------

  function LitItems(w: string): seq<Item> { seq(|w|, i requires 0 <= i < |w| => Item(Exactly(w[i]), false)) }

  predicate Quantifies(s: string) { s != "" && s[0] in "*+" }

  /** What is parsed after `head` has been. */
  function Then(head: seq<Item>, rest: Option<seq<Item>>): Option<seq<Item>> {
    if rest.None? then None else Some(head + rest.value)
  }

  predicate LiteralChar(c: char) { c == '.' || !IsSpecial(c) }

  lemma ParseChar(c: char, rest: string)
    requires LiteralChar(c) && !Quantifies(rest)
    ensures ParseRegex(Escape(c) + rest) == Then([Item(Exactly(c), false)], ParseRegex(rest))
  {
    var s := Escape(c) + rest;
    if c == '.' {
      assert s[0] == '\\' && "\\." <= s && s[2..] == rest;
      assert rest != "" ==> s[2] == rest[0];
      assert ParseClass(s) == Some((Exactly('.'), 2));
    } else {
      assert s[0] == c && s[1..] == rest;
      assert rest != "" ==> s[1] == rest[0];
      assert !("\\." <= s) && !("[^/]" <= s);
      assert ParseClass(s) == Some((Exactly(c), 1));
    }
  }

  lemma EscapeStarts(c: char, rest: string)
    requires LiteralChar(c)
    ensures !Quantifies(Escape(c) + rest) && (Escape(c) + rest)[0] !in "*+?{"
  {
    assert (Escape(c) + rest)[0] == if c == '.' then '\\' else c;
  }

  predicate IsLiteral(w: string) {
    forall i :: 0 <= i < |w| ==> LiteralChar(w[i]) && w[i] !in {'*', '\U{A7}'}
  }

  lemma {:induction false} ParseLiteral(w: string, rest: string)
    requires IsLiteral(w) && !Quantifies(rest)
    ensures ParseRegex(Escaped(w) + rest) == Then(LitItems(w), ParseRegex(rest))
    ensures !Quantifies(Escaped(w) + rest)
  {
    hide ParseRegex, LiteralChar, Quantifies, Escape;
    if w == "" {
      assert Escaped(w) + rest == rest;
      assert ParseRegex(rest).Some? ==> LitItems(w) + ParseRegex(rest).value == ParseRegex(rest).value;
    } else {
      ParseLiteral(w[1..], rest);
      var tail := Escaped(w[1..]) + rest;
      assert Escaped(w) + rest == Escape(w[0]) + tail;
      ParseChar(w[0], tail);
      EscapeStarts(w[0], tail);
      if ParseRegex(rest).Some? {
        var r := ParseRegex(rest).value;
        assert LitItems(w) + r == [Item(Exactly(w[0]), false)] + (LitItems(w[1..]) + r);
      }
    }
  }

  lemma {:induction false} LiteralMatches(w: string, items: seq<Item>, t: string)
    ensures Matches(LitItems(w) + items, t) <==> w <= t && Matches(items, t[if |w| <= |t| then |w| else 0..])
  {
    if w == "" {
      assert LitItems(w) + items == items && t[0..] == t;
    } else {
      var all := LitItems(w) + items;
      assert all[0] == Item(Exactly(w[0]), false) && all[1..] == LitItems(w[1..]) + items;
      if t != "" && t[0] == w[0] {
        LiteralMatches(w[1..], items, t[1..]);
        assert w == [w[0]] + w[1..] && t == [t[0]] + t[1..];
        if |w| <= |t| { assert t[1..][|w| - 1..] == t[|w|..]; }
      }
    }
  }

  lemma LiteralHasNoStar(w: string)
    requires IsLiteral(w)
    ensures '*' !in w && '\U{A7}' !in w && '(' !in w && ')' !in w && '[' !in w && ']' !in w
  {
    forall c | c in w ensures LiteralChar(c) && c !in {'*', '\U{A7}'} {
      var i :| 0 <= i < |w| && w[i] == c;
    }
  }

  // ------------------------------------------------------------------
  // A folder in parentheses
  // ------------------------------------------------------------------

  /** Two literal texts around a group. */
  lemma TranslateGroup(a: string, w: string, rest: string)
    requires IsLiteral(a) && IsLiteral(w)
    ensures Translate(a + "(" + w + ")" + rest) == Escaped(a) + ("(" + (Escaped(w) + (")" + Translate(rest))))
  {
    hide Translate, IsLiteral;
    LiteralHasNoStar(a);
    LiteralHasNoStar(w);
    assert a + "(" + w + ")" + rest == a + (['('] + (w + ([')'] + rest)));
    TranslateLiteral(a, ['('] + (w + ([')'] + rest)));
    TranslateCons('(', w + ([')'] + rest));
    TranslateLiteral(w, [')'] + rest);
    TranslateCons(')', rest);
  }

  lemma ParseParen(p: char, rest: string)
    requires p in {'(', ')'} && rest != "" && rest[0] !in "*+?{"
    ensures ParseRegex([p] + rest) == ParseRegex(rest) && !Quantifies([p] + rest)
  {
    assert ([p] + rest)[1..] == rest && ([p] + rest)[1] == rest[0];
  }

  lemma ParseGroup(a: string, w: string, tail: string)
    requires IsLiteral(a) && IsLiteral(w) && w != "" && tail != "" && tail[0] !in "*+?{"
    ensures ParseRegex(Escaped(a) + ("(" + (Escaped(w) + (")" + tail)))) ==
            Then(LitItems(a), Then(LitItems(w), ParseRegex(tail)))
  {
    hide ParseRegex, IsLiteral, LitItems;
    var close := [')'] + tail;
    ParseParen(')', tail);
    ParseLiteral(w, close);
    var inner := Escaped(w) + close;
    WordStarts(w, close);
    ParseParen('(', inner);
    ParseLiteral(a, ['('] + inner);
  }

  lemma WordStarts(w: string, rest: string)
    requires IsLiteral(w) && w != ""
    ensures Escaped(w) + rest != "" && (Escaped(w) + rest)[0] !in "*+?{"
  {
    hide IsSpecial;
    EscapeStarts(w[0], Escaped(w[1..]) + rest);
    assert Escaped(w) + rest == Escape(w[0]) + (Escaped(w[1..]) + rest);
  }

  /** Whatever follows the group, no file below the folder in parentheses matches. */
  lemma GroupNeverMatchesItself(a: string, w: string, v: string, rest: string, x: string)
    requires IsLiteral(a) && IsLiteral(w) && IsLiteral(v) && w != "" && v != ""
    ensures MatchesPattern(a + "(" + x, a + "(" + w + ")" + v + rest) != Some(true)
  {
    hide ParseRegex, Translate, Matches, IsLiteral, Balanced, LitItems;
    assert a + "(" + w + ")" + v + rest == a + "(" + w + ")" + (v + rest);
    TranslateGroup(a, w, v + rest);
    LiteralHasNoStar(v);
    LiteralHasNoStar(w);
    TranslateLiteral(v, rest);
    WordStarts(v, Translate(rest));
    ParseGroup(a, w, Escaped(v) + Translate(rest));
    var tail := ParseRegex(Escaped(v) + Translate(rest));
    if tail.Some? {
      var f := a + "(" + x;
      LiteralMatches(a, LitItems(w) + tail.value, f);
      assert f[|a|..] == "(" + x;
      LiteralMatches(w, tail.value, "(" + x);
      assert w[0] in w && ("(" + x)[0] == '(';
    }
  }

  lemma TranslateBelow(a: string, w: string, v: string)
    requires IsLiteral(a) && IsLiteral(w) && IsLiteral(v)
    ensures Translate(a + w + v + "**") == Escaped(a) + (Escaped(w) + (Escaped(v) + ".*"))
    ensures Translate(v + "**") == Escaped(v) + ".*"
  {
    hide Translate, IsLiteral, Escaped;
    StarsAre();
    LiteralHasNoStar(a);
    LiteralHasNoStar(w);
    LiteralHasNoStar(v);
    assert a + w + v + "**" == a + (w + (v + "**"));
    TranslateLiteral(a, w + (v + "**"));
    TranslateLiteral(w, v + "**");
    TranslateLiteral(v, "**");
  }

  lemma ParseFlat(a: string, w: string, tail: string)
    requires IsLiteral(a) && IsLiteral(w) && !Quantifies(tail)
    ensures ParseRegex(Escaped(a) + (Escaped(w) + tail)) == Then(LitItems(a), Then(LitItems(w), ParseRegex(tail)))
  {
    hide ParseRegex, IsLiteral, LitItems, Escaped;
    ParseLiteral(w, tail);
    ParseLiteral(a, Escaped(w) + tail);
  }

  lemma TailStarts(v: string)
    requires IsLiteral(v) && v != ""
    ensures var tail := Escaped(v) + ".*"; tail != "" && tail[0] !in "*+?{" && !Quantifies(tail)
  {
    hide IsLiteral;
    WordStarts(v, ".*");
  }

  /** Such a pattern is read without its parentheses. */
  lemma GroupIsReadWithout(a: string, w: string, v: string, f: string)
    requires IsLiteral(a) && IsLiteral(w) && IsLiteral(v) && w != "" && v != ""
    ensures MatchesPattern(f, a + "(" + w + ")" + v + "**") == MatchesPattern(f, a + w + v + "**")
  {
    hide ParseRegex, Translate, Matches, IsLiteral, Balanced, LitItems, Escaped, Then;
    var tail := Escaped(v) + ".*";
    assert a + "(" + w + ")" + v + "**" == a + "(" + w + ")" + (v + "**");
    TranslateGroup(a, w, v + "**");
    TranslateBelow(a, w, v);
    TailStarts(v);
    ParseGroup(a, w, tail);
    ParseFlat(a, w, tail);
    GroupBalanced(a, w, tail);
    StarsBalanced(v, ".*");
  }

  lemma StarsAre()
    ensures Translate("**") == ".*" && !Quantifies(".*")
  {
    hide ReplaceAll;
    assert "**" == ['*'] + ("*" + "");
    ReplaceCons('*', "*", ".", "\\.");
    assert "*" == ['*'] + "";
    ReplaceCons('*', "", ".", "\\.");
    NothingReplaced();
    assert "**" == "**" + "";
    ReplaceHit("", "**", PLACEHOLDER);
    ReplaceAllAbsent(PLACEHOLDER, '*', "[^/]*");
    assert PLACEHOLDER + "" == PLACEHOLDER && ".*" + "" == ".*";
    ReplaceHit("", PLACEHOLDER, ".*");
  }

  lemma NothingReplaced()
    ensures forall needle, fill :: needle != "" ==> ReplaceAll("", needle, fill) == ""
  {
  }

  lemma {:induction false} EscapedFlat(w: string)
    requires IsLiteral(w)
    ensures '(' !in Escaped(w) && ')' !in Escaped(w)
  {
    if w != "" {
      EscapedFlat(w[1..]);
      FlatChar(w[0]);
    }
  }

  lemma FlatChar(c: char)
    requires LiteralChar(c)
    ensures '(' !in Escape(c) && ')' !in Escape(c)
  {
  }

  lemma GroupBalanced(a: string, w: string, tail: string)
    requires IsLiteral(a) && IsLiteral(w)
    ensures Balanced(Escaped(a) + ("(" + (Escaped(w) + (")" + tail))), 0) <==> Balanced(tail, 0)
    ensures Balanced(Escaped(a) + (Escaped(w) + tail), 0) <==> Balanced(tail, 0)
  {
    hide IsLiteral;
    EscapedFlat(a);
    EscapedFlat(w);
    var close := ")" + tail;
    assert close[0] == ')' && close[1..] == tail;
    var inner := Escaped(w) + close;
    BalanceSkips(Escaped(w), close, 1);
    var whole := "(" + inner;
    assert whole[0] == '(' && whole[1..] == inner;
    BalanceSkips(Escaped(a), whole, 0);
    BalanceSkips(Escaped(w), tail, 0);
    BalanceSkips(Escaped(a), Escaped(w) + tail, 0);
  }

  lemma StarsBalanced(v: string, stars: string)
    requires IsLiteral(v) && stars == ".*"
    ensures Balanced(Escaped(v) + stars, 0)
  {
    EscapedFlat(v);
    BalanceSkips(Escaped(v), stars, 0);
    assert stars[1..] == "*" && "*"[1..] == "";
  }

  /** The files of the folder the pattern names are the ones its glob means. */
  lemma GlobMeansFolder(a: string, w: string, v: string, x: string)
    requires IsLiteral(a) && IsLiteral(w) && IsLiteral(v)
    ensures GlobMatch(a + "(" + w + ")" + v + "**", a + "(" + w + ")" + v + x)
  {
    hide IsLiteral;
    LiteralHasNoStar(a);
    LiteralHasNoStar(w);
    LiteralHasNoStar(v);
    var head := a + "(" + w + ")" + v;
    E.LiteralReads(c => true, head, "**", head + x);
    assert (head + x)[|head|..] == x;
    GlobstarReads(c => true, x);
  }

  /** The folder, with or without its parentheses. */
  function Folder(w: string, grouped: bool): string { if grouped then "(" + w + ")" else w }

  /** A pattern for everything below a folder is matched as documented on all one-line names exactly when the folder is
      not in parentheses. */
  lemma GroupedAgreesIff(a: string, w: string, v: string, grouped: bool)
    requires IsLiteral(a) && IsLiteral(w) && IsLiteral(v) && w != "" && v != ""
    requires All(a, NotTerminator()) && All(w, NotTerminator()) && All(v, NotTerminator())
    ensures (forall f :: All(f, NotTerminator()) ==>
              MatchesPattern(f, a + Folder(w, grouped) + v + "**") ==
              Some(GlobMatch(a + Folder(w, grouped) + v + "**", f)))
            <==> !grouped
  {
    hide MatchesPattern, GlobMatch, IsLiteral, All;
    if grouped {
      var f := a + "(" + w + ")" + v + "";
      assert a + Folder(w, true) + v + "**" == a + "(" + w + ")" + v + "**";
      GlobMeansFolder(a, w, v, "");
      assert f == a + "(" + (w + ")" + v);
      GroupNeverMatchesItself(a, w, v, "**", w + ")" + v);
      assert f == a + ("(" + (w + (")" + v)));
      OneLineJoin(")", v);
      OneLineJoin(w, ")" + v);
      OneLineJoin("(", w + (")" + v));
      OneLineJoin(a, "(" + (w + (")" + v)));
    } else {
      LiteralJoin(a, w);
      LiteralJoin(a + w, v);
      PlainBelow(a + w + v);
      forall f | All(f, NotTerminator())
        ensures MatchesPattern(f, a + w + v + "**") == Some(GlobMatch(a + w + v + "**", f))
      {
        OneLineFilesMatchGlob(f, a + w + v + "**");
      }
    }
  }

  lemma OneLineJoin(a: string, b: string)
    requires (All(a, NotTerminator()) || a in {"(", ")"}) && All(b, NotTerminator())
    ensures All(a + b, NotTerminator())
  {
    assert !IsLineTerminator('(') && !IsLineTerminator(')');
  }

  lemma PlainBelow(w: string)
    requires IsLiteral(w)
    ensures Plain(w + "**") && !Clash(w + "**")
  {
    hide IsSpecial, Clash;
    LiteralHasNoStar(w);
    E.NoMarkNoClash(w + "**");
  }

  // ------------------------------------------------------------------
  // A folder in brackets
  // ------------------------------------------------------------------

  lemma {:induction false} ParseMembers(w: string, tail: string)
    requires IsLiteral(w) && '-' !in w
    ensures ParseSet(Escaped(w) + ("]" + tail)) == Some((w, |Escaped(w)| + 1))
  {
    hide ParseSet, Escape, Escaped, LiteralChar;
    EscapedUnfold(w);
    if w == "" {
      SetEnds(tail);
      assert "" + ("]" + tail) == "]" + tail;
    } else {
      var rest := Escaped(w[1..]) + ("]" + tail);
      Associative(Escape(w[0]), Escaped(w[1..]), "]" + tail);
      assert w == [w[0]] + w[1..] && w[0] in w;
      ParseMembers(w[1..], tail);
      MemberStep(w[0], rest);
    }
  }

  lemma SetEnds(tail: string)
    ensures ParseSet("]" + tail) == Some(([], 1))
  {
    assert ("]" + tail)[0] == ']';
  }

  lemma MemberStep(c: char, rest: string)
    requires LiteralChar(c) && c !in {'-', '*'} && ParseSet(rest).Some?
    ensures ParseSet(Escape(c) + rest) ==
            Some(([c] + ParseSet(rest).value.0, |Escape(c)| + ParseSet(rest).value.1))
  {
    var s := Escape(c) + rest;
    if c == '.' {
      assert "\\." <= s && s[0] == '\\' && s[2..] == rest;
    } else {
      assert s[0] == c && s[1..] == rest && !("\\." <= s);
    }
  }

  lemma BracketClass(w: string, tail: string)
    requires IsLiteral(w) && '-' !in w && w != ""
    ensures var s := "[" + (Escaped(w) + ("]" + tail));
            && |Escaped(w)| + 2 <= |s| && s[|Escaped(w)| + 2..] == tail && s[0] == '['
            && ParseClass(s) == Some((OneOf(w), |Escaped(w)| + 2))
  {
    hide ParseSet, IsLiteral, Escaped, IsSpecial;
    var inner := Escaped(w) + ("]" + tail);
    var s := "[" + inner;
    assert s[0] == '[' && s[1..] == inner;
    ParseMembers(w, tail);
    NotComplement(w, "]" + tail);
    assert inner[|Escaped(w)| + 1..] == tail;
    assert s[|Escaped(w)| + 2..] == s[1..][|Escaped(w)| + 1..];
  }

  /** One unquantified item. */
  lemma ParseItem(s: string, cls: CharClass, n: nat)
    requires ParseClass(s) == Some((cls, n)) && s != "" && s[0] !in {'(', ')'} && n <= |s| && !Quantifies(s[n..])
    ensures ParseRegex(s) == Then([Item(cls, false)], ParseRegex(s[n..]))
  {
    hide ParseClass;
    assert n < |s| ==> s[n..][0] == s[n];
  }

  lemma ParseBrackets(w: string, tail: string)
    requires IsLiteral(w) && '-' !in w && w != "" && !Quantifies(tail)
    ensures ParseRegex("[" + (Escaped(w) + ("]" + tail))) == Then([Item(OneOf(w), false)], ParseRegex(tail))
  {
    hide ParseClass, ParseRegex, IsLiteral, Escaped;
    BracketClass(w, tail);
    ParseItem("[" + (Escaped(w) + ("]" + tail)), OneOf(w), |Escaped(w)| + 2);
  }

  lemma NotComplement(w: string, rest: string)
    requires IsLiteral(w) && w != ""
    ensures !("[^/]" <= "[" + (Escaped(w) + rest))
  {
    var s := Escaped(w) + rest;
    assert s[0] == if w[0] == '.' then '\\' else w[0];
    assert ("[" + s)[1] == s[0];
  }

  lemma TranslateBrackets(a: string, w: string, rest: string)
    requires IsLiteral(a) && IsLiteral(w)
    ensures Translate(a + "[" + w + "]" + rest) == Escaped(a) + ("[" + (Escaped(w) + ("]" + Translate(rest))))
  {
    hide Translate, IsLiteral, Escaped;
    LiteralHasNoStar(a);
    LiteralHasNoStar(w);
    assert a + "[" + w + "]" + rest == a + (['['] + (w + ([']'] + rest)));
    TranslateLiteral(a, ['['] + (w + ([']'] + rest)));
    TranslateCons('[', w + ([']'] + rest));
    TranslateLiteral(w, [']'] + rest);
    TranslateCons(']', rest);
  }

  lemma SlashStarts(rest: string)
    ensures !Quantifies(Translate("/" + rest))
  {
    hide Translate;
    TranslateCons('/', rest);
  }

  /** Whatever follows the brackets, no file below the folder in brackets matches. */
  lemma BracketsNeverMatchThemselves(a: string, w: string, rest: string, x: string)
    requires IsLiteral(a) && IsLiteral(w) && '-' !in w && w != ""
    ensures MatchesPattern(a + "[" + x, a + "[" + w + "]/" + rest) != Some(true)
  {
    hide ParseRegex, Translate, Matches, IsLiteral, Balanced, LitItems, Escaped;
    var tail := Translate("/" + rest);
    assert a + "[" + w + "]/" + rest == a + "[" + w + "]" + ("/" + rest);
    TranslateBrackets(a, w, "/" + rest);
    SlashStarts(rest);
    ParseBrackets(w, tail);
    var inner := "[" + (Escaped(w) + ("]" + tail));
    ParseLiteral(a, inner);
    if ParseRegex(tail).Some? {
      var items := [Item(OneOf(w), false)] + ParseRegex(tail).value;
      LiteralMatches(a, items, a + "[" + x);
      assert (a + "[" + x)[|a|..] == "[" + x;
      LiteralHasNoStar(w);
      if Matches(items, "[" + x) { FirstItem(w, ParseRegex(tail).value, "[" + x); }
    }
  }

  lemma FirstItem(w: string, rest: seq<Item>, t: string)
    requires t != "" && Matches([Item(OneOf(w), false)] + rest, t)
    ensures t[0] in w
  {
  }

  // ------------------------------------------------------------------
  // The program's own patterns
  // ------------------------------------------------------------------

  /** A folder of the application's pages, as the rules spell it. */
  function AppPattern(folder: string): string { "src/routes/" + "(" + "app" + ")" + ("/" + folder + "/") + "**" }

  lemma LettersLiteral(w: string)
    requires forall c <- w :: 'a' <= c <= 'z' || c == '/' || c == '.'
    ensures IsLiteral(w) && '-' !in w
  {
    hide IsSpecial;
    forall i | 0 <= i < |w| ensures LiteralChar(w[i]) && w[i] !in {'*', '\U{A7}'} {
      assert w[i] in w;
      E.LowerIsPlain(w[i]);
    }
  }

  lemma RoutesLiteral()
    ensures IsLiteral("src/routes/") && IsLiteral("app") && IsLiteral("src/routes/api/") && IsLiteral("...path")
    ensures '-' !in "...path"
  {
    LettersLiteral("src/routes/");
    LettersLiteral("app");
    LettersLiteral("src/routes/api/");
    LettersLiteral("...path");
  }

  /** No file below `src/routes/(app)/` matches the pattern of any page folder; what matches is below
      `src/routes/app/`. */
  lemma AppPatternMisses(folder: string, x: string, f: string)
    requires IsLiteral(folder)
    ensures MatchesPattern("src/routes/(app)/" + x, AppPattern(folder)) != Some(true)
    ensures MatchesPattern(f, AppPattern(folder)) == Some(true) ==> ("src/routes/app/" + folder + "/") <= f
  {
    hide MatchesPattern, IsLiteral;
    var a, w, v := "src/routes/", "app", "/" + folder + "/";
    RoutesLiteral();
    FolderLiteral(folder);
    assert a + "(" + w + ")" + v + "**" == AppPattern(folder);
    assert "src/routes/(app)/" + x == a + "(" + ("app)/" + x);
    GroupNeverMatchesItself(a, w, v, "**", "app)/" + x);
    GroupIsReadWithout(a, w, v, f);
    var flat := "src/routes/app/" + folder + "/";
    assert a + w + v == flat;
    FlatLiteral(flat, folder);
    E.BelowMatch(flat, f);
  }

  lemma FolderLiteral(folder: string)
    requires IsLiteral(folder)
    ensures IsLiteral("/" + folder + "/")
  {
    LettersLiteral("/");
    LiteralJoin("/", folder);
    LiteralJoin("/" + folder, "/");
  }

  lemma LiteralJoin(a: string, b: string)
    requires IsLiteral(a) && IsLiteral(b)
    ensures IsLiteral(a + b)
  {
    hide LiteralChar;
  }

  lemma FlatLiteral(flat: string, folder: string)
    requires IsLiteral(folder) && flat == "src/routes/app/" + folder + "/"
    ensures E.Literal(flat)
  {
    hide IsLiteral;
    LettersLiteral("src/routes/app/");
    LettersLiteral("/");
    LiteralJoin("src/routes/app/", folder);
    LiteralJoin("src/routes/app/" + folder, "/");
    LiteralIsLiteral(flat);
  }

  lemma LiteralIsLiteral(w: string)
    requires IsLiteral(w)
    ensures E.Literal(w)
  {
    hide IsSpecial;
    LiteralHasNoStar(w);
  }

  /** A rule with such patterns only is never wanted by files of the application's pages, however many change. */
  lemma AppRulesNeverWanted(rule: SuiteRule, folders: seq<string>, files: set<string>)
    requires |rule.patterns| == |folders| && forall i :: 0 <= i < |folders| ==>
               IsLiteral(folders[i]) && rule.patterns[i] == AppPattern(folders[i])
    requires forall f <- files :: "src/routes/(app)/" <= f
    ensures !Wanted(GlobMatcher(), rule, files)
  {
    hide MatchesPattern, IsLiteral, AppPattern;
    forall f, p | f in files && p in rule.patterns ensures MatchesPattern(f, p) != Some(true) {
      var i :| 0 <= i < |rule.patterns| && rule.patterns[i] == p;
      var x := f[|"src/routes/(app)/"|..];
      assert f == "src/routes/(app)/" + x;
      AppPatternMisses(folders[i], x, f);
    }
  }

  const BUILDER := SuiteRule([AppPattern("config/collectionbuilder")],
                             "bun x playwright test tests/e2e/routes/collection-builder/ --project=chromium",
                             "E2E Collection Builder", 4)
  const DASHBOARD := SuiteRule([AppPattern("dashboard")],
                               "bun x playwright test tests/e2e/routes/dashboard/ --project=chromium",
                               "E2E Dashboard", 4)
  const SETTINGS := SuiteRule([AppPattern("config")],
                              "bun x playwright test tests/e2e/routes/config/ tests/e2e/routes/system/ "
                              + "--project=chromium",
                              "E2E Settings & System", 4)

  /** Three of the program's end-to-end rules: whatever changes among the pages they are for, they are not selected. */
  lemma PageRulesNeverWanted(rule: SuiteRule, files: set<string>)
    requires rule in {BUILDER, DASHBOARD, SETTINGS} && forall f <- files :: "src/routes/(app)/" <= f
    ensures !Wanted(GlobMatcher(), rule, files)
  {
    hide AppPattern;
    LettersLiteral("config/collectionbuilder");
    LettersLiteral("dashboard");
    LettersLiteral("config");
    var folder := if rule == BUILDER then "config/collectionbuilder"
                  else if rule == DASHBOARD then "dashboard" else "config";
    AppRulesNeverWanted(rule, [folder], files);
  }

  /** The same for the folder `[...path]` of the API, whatever the pattern goes on with. */
  lemma ApiPatternMisses(rest: string, x: string)
    ensures MatchesPattern("src/routes/api/[...path]/" + x, "src/routes/api/" + "[" + "...path" + "]/" + rest) !=
            Some(true)
  {
    hide MatchesPattern, IsLiteral;
    RoutesLiteral();
    assert "src/routes/api/[...path]/" + x == "src/routes/api/" + "[" + ("...path]/" + x);
    BracketsNeverMatchThemselves("src/routes/api/", "...path", rest, "...path]/" + x);
  }
}
