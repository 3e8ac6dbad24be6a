/** Glob patterns of the test selector: `matchesPattern` in scripts/test-smart.ts.

    The program turns a glob into a regular expression by four textual replacements.
    Here the four replacements, the part of the regular-expression syntax they can
    produce, and a direct reading of globs are three separate definitions, and the
    theorems say when the first two together compute the third.
 */
module Glob {
  import opened Options
  import opened Sequences

  // ------------------------------------------------------------------
  // String.prototype.replace with a global literal pattern
  // ------------------------------------------------------------------

  /** Leftmost, non-overlapping replacement of every occurrence of `needle`. */
  function ReplaceAll(s: string, needle: string, fill: string): string
    requires needle != ""
    decreases |s|
  {
    if s == "" then ""
    else if needle <= s then fill + ReplaceAll(s[|needle|..], needle, fill)
    else [s[0]] + ReplaceAll(s[1..], needle, fill)
  }

  const PLACEHOLDER := "\U{A7}\U{A7}GLOBSTAR\U{A7}\U{A7}"

  /** The regular expression text `matchesPattern` builds, without the anchors. */
  function Translate(pattern: string): string {
    ReplaceAll(
      ReplaceAll(
        ReplaceAll(
          ReplaceAll(pattern, ".", "\\."), "**", PLACEHOLDER), "*", "[^/]*"), PLACEHOLDER, ".*")
  }

  // ------------------------------------------------------------------
  // The regular expressions that can come out
  // ------------------------------------------------------------------

  predicate IsLineTerminator(c: char) {
    c == '\n' || c == '\r' || c == '\U{2028}' || c == '\U{2029}'
  }

  datatype CharClass = Exactly(c: char) | NotSlash | AnyButLineTerminator | OneOf(chars: seq<char>) {
    predicate Has(d: char) {
      match this
      case Exactly(c) => c == d
      case NotSlash => d != '/'
      case AnyButLineTerminator => !IsLineTerminator(d)
      case OneOf(chars) => d in chars
    }
  }

  datatype Item = Item(cls: CharClass, star: bool)

  predicate IsSpecial(c: char) {
    c in "\\^$.*+?()[]{}|"
  }

  /** The members of a set up to its `]`, with the number of characters they take; no ranges, no complement. */
  function ParseSet(s: string): (r: Option<(seq<char>, nat)>)
    ensures r.Some? ==> 0 < r.value.1 <= |s|
  {
    if s == "" then None
    else if s[0] == ']' then Some(([], 1))
    else if "\\." <= s then
      match ParseSet(s[2..])
      case None => None
      case Some((chars, n)) => Some((['.'] + chars, n + 2))
    else if s[0] in "\\-[()^" then None
    else
      match ParseSet(s[1..])
      case None => None
      case Some((chars, n)) => Some(([s[0]] + chars, n + 1))
  }

  /** One class at the head of `s`, with the number of characters it takes. */
  function ParseClass(s: string): (r: Option<(CharClass, nat)>)
    ensures r.Some? ==> 0 < r.value.1 <= |s|
  {
    if s == "" then None
    else if "\\." <= s then Some((Exactly('.'), 2))
    else if "[^/]" <= s then Some((NotSlash, 4))
    else if s[0] == '.' then Some((AnyButLineTerminator, 1))
    else if s[0] == '[' then
      match ParseSet(s[1..])
      case None => None
      case Some((chars, n)) => Some((OneOf(chars), n + 1))
    else if IsSpecial(s[0]) then None
    else Some((Exactly(s[0]), 1))
  }

  /** `None` for syntax outside the fragment (quantified groups, alternatives, counts, ...).  A group that is not
      quantified changes nothing of what the expression accepts. */
  function ParseRegex(s: string): Option<seq<Item>>
    decreases |s|
  {
    if s == "" then Some([])
    else if s[0] == '(' || s[0] == ')' then
      if |s| > 1 && s[1] in "*+?{" then None else ParseRegex(s[1..])
    else
      match ParseClass(s)
      case None => None
      case Some((cls, n)) =>
        var star, plus := n < |s| && s[n] == '*', n < |s| && s[n] == '+';
        match ParseRegex(s[if star || plus then n + 1 else n..])
        case None => None
        case Some(rest) => Some((if plus then [Item(cls, false), Item(cls, true)] else [Item(cls, star)]) + rest)
  }

  /** Every group that is opened is closed. */
  predicate Balanced(s: string, open: nat) {
    if s == "" then open == 0
    else if s[0] == '(' then Balanced(s[1..], open + 1)
    else if s[0] == ')' then open > 0 && Balanced(s[1..], open - 1)
    else Balanced(s[1..], open)
  }

  /** `^items$` matches the whole of `t`. */
  predicate Matches(items: seq<Item>, t: string)
    decreases |items|, |t|
  {
    if items == [] then t == ""
    else if items[0].star then
      || Matches(items[1..], t)
      || (t != "" && items[0].cls.Has(t[0]) && Matches(items, t[1..]))
    else t != "" && items[0].cls.Has(t[0]) && Matches(items[1..], t[1..])
  }

  /** The whole of `matchesPattern`; `None` when the text is outside the modelled syntax. */
  function MatchesPattern(file: string, pattern: string): Option<bool> {
    if !Balanced(Translate(pattern), 0) then None
    else
      match ParseRegex(Translate(pattern))
      case None => None
      case Some(items) => Some(Matches(items, file))
  }

  // ------------------------------------------------------------------
  // What a glob means
  // ------------------------------------------------------------------

  ghost predicate All(t: string, p: char -> bool) {
    forall i :: 0 <= i < |t| ==> p(t[i])
  }

  /** `**` stands for any text of `any` characters, `*` for any text without a slash,
      every other character for itself. */
  ghost predicate GlobReads(any: char -> bool, pattern: string, t: string)
    decreases |pattern|
  {
    if pattern == "" then t == ""
    else if "**" <= pattern then
      exists k :: 0 <= k <= |t| && All(t[..k], any) && GlobReads(any, pattern[2..], t[k..])
    else if pattern[0] == '*' then
      exists k :: 0 <= k <= |t| && All(t[..k], c => c != '/') && GlobReads(any, pattern[1..], t[k..])
    else t != "" && t[0] == pattern[0] && GlobReads(any, pattern[1..], t[1..])
  }

  /** The documented meaning: `**` is any text. */
  ghost predicate GlobMatch(pattern: string, t: string) {
    GlobReads(c => true, pattern, t)
  }

  /** No character that means something to a regular expression, other than `.` and `*`. */
  predicate Plain(pattern: string) {
    forall i :: 0 <= i < |pattern| ==> !IsSpecial(pattern[i]) || pattern[i] == '.' || pattern[i] == '*'
  }

  /** `s` starts with text that the last replacement takes for (part of) a placeholder. */
  predicate ClashHere(s: string) {
    || PLACEHOLDER <= s
    || PLACEHOLDER[..11] + "**" <= s
    || PLACEHOLDER[..10] + "**" <= s
  }

  /** Some suffix of the pattern starts with such text. */
  predicate Clash(pattern: string) {
    pattern != "" && (ClashHere(pattern) || Clash(pattern[1..]))
  }

  // ------------------------------------------------------------------
  // Tokens: the leftmost reading of a pattern
  // ------------------------------------------------------------------

  datatype Token = Lit(c: char) | Star | Globstar

  function Tokens(pattern: string): (r: seq<Token>)
    ensures forall k :: 0 <= k < |r| && r[k].Lit? ==> r[k].c in pattern && r[k].c != '*'
  {
    if pattern == "" then []
    else if "**" <= pattern then [Globstar] + Tokens(pattern[2..])
    else if pattern[0] == '*' then [Star] + Tokens(pattern[1..])
    else [Lit(pattern[0])] + Tokens(pattern[1..])
  }

  /** Text of a token with the given spellings of the two wildcards. */
  function Spell(k: Token, star: string, globstar: string): string {
    match k
    case Lit(c) => if c == '.' then "\\." else [c]
    case Star => star
    case Globstar => globstar
  }

  function SpellAll(ks: seq<Token>, star: string, globstar: string): string {
    if ks == [] then "" else Spell(ks[0], star, globstar) + SpellAll(ks[1..], star, globstar)
  }

  /** Text after the third replacement. */
  function Staged(ks: seq<Token>): string { SpellAll(ks, "[^/]*", PLACEHOLDER) }

  /** Text the four replacements are meant to produce. */
  function Intended(ks: seq<Token>): string { SpellAll(ks, "[^/]*", ".*") }

  function Items(ks: seq<Token>): seq<Item> {
    if ks == [] then []
    else
      var item := match ks[0]
        case Lit(c) => Item(Exactly(c), false)
        case Star => Item(NotSlash, true)
        case Globstar => Item(AnyButLineTerminator, true);
      [item] + Items(ks[1..])
  }

  // ------------------------------------------------------------------
  // Replacement lemmas
  // ------------------------------------------------------------------

  lemma ReplaceAllCons(x: char, s: string, c: char, fill: string)
    ensures ReplaceAll([x] + s, [c], fill) == (if x == c then fill else [x]) + ReplaceAll(s, [c], fill)
  {
    assert ([x] + s)[1..] == s;
    assert [c] <= [x] + s <==> [c] == ([x] + s)[..1];
    assert ([x] + s)[..1] == [x];
    assert [c] == [x] <==> [c][0] == [x][0];
  }

  /** A one-character needle: replacement distributes over concatenation. */
  lemma {:induction false} ReplaceAllConcat(s: string, t: string, c: char, fill: string)
    ensures ReplaceAll(s + t, [c], fill) == ReplaceAll(s, [c], fill) + ReplaceAll(t, [c], fill)
    decreases |s|, 1
  {
    if s == "" {
      assert s + t == t;
    } else {
      assert s == [s[0]] + s[1..];
      ReplaceAllTail(s[0], s[1..], t, c, fill);
    }
  }

  lemma {:induction false} ReplaceAllTail(x: char, s: string, t: string, c: char, fill: string)
    ensures ReplaceAll([x] + s + t, [c], fill) == ReplaceAll([x] + s, [c], fill) + ReplaceAll(t, [c], fill)
    decreases |s| + 1, 0
  {
    hide ReplaceAll;
    ReplaceAllConcat(s, t, c, fill);
    ReplaceAllCons(x, s, c, fill);
    ReplaceAllCons(x, s + t, c, fill);
    Associative([x], s, t);
    Associative(if x == c then fill else [x], ReplaceAll(s, [c], fill), ReplaceAll(t, [c], fill));
  }

  lemma {:induction false} ReplaceAllAbsent(s: string, c: char, fill: string)
    requires c !in s
    ensures ReplaceAll(s, [c], fill) == s
  {
    if s != "" {
      ReplaceAllAbsent(s[1..], c, fill);
      assert s == [s[0]] + s[1..];
    }
  }

  function EscapeDots(pattern: string): string { ReplaceAll(pattern, ".", "\\.") }

  lemma {:induction false} EscapeDotsHead(pattern: string)
    requires pattern != ""
    ensures EscapeDots(pattern) == (if pattern[0] == '.' then "\\." else [pattern[0]]) + EscapeDots(pattern[1..])
  {
    assert "." <= pattern <==> pattern[0] == '.';
  }

  lemma ReplaceMiss(c: char, s: string, needle: string, fill: string)
    requires needle != "" && !(needle <= [c] + s)
    ensures ReplaceAll([c] + s, needle, fill) == [c] + ReplaceAll(s, needle, fill)
  {
    assert ([c] + s)[1..] == s;
  }

  lemma ReplaceHit(s: string, needle: string, fill: string)
    requires needle != ""
    ensures ReplaceAll(needle + s, needle, fill) == fill + ReplaceAll(s, needle, fill)
  {
    assert (needle + s)[|needle|..] == s;
  }

  lemma TokensLit(c: char, rest: string)
    requires c != '*'
    ensures Tokens([c] + rest) == [Lit(c)] + Tokens(rest)
  {
    assert ([c] + rest)[0] == c && ([c] + rest)[1..] == rest;
  }

  lemma SpellCons(k: Token, ks: seq<Token>, star: string, globstar: string)
    ensures SpellAll([k] + ks, star, globstar) == Spell(k, star, globstar) + SpellAll(ks, star, globstar)
  {
    assert ([k] + ks)[1..] == ks;
  }

  /** The text after two replacements, one token at a time. */
  lemma {:induction false} StageGlobstar(pattern: string, place: string)
    ensures ReplaceAll(EscapeDots(pattern), "**", place) == SpellAll(Tokens(pattern), "*", place)
  {
    if pattern == "" {
    } else if "**" <= pattern {
      StageGlobstar(pattern[2..], place);
      EscapeStars(pattern);
      ReplaceHit(EscapeDots(pattern[2..]), "**", place);
      SpellCons(Globstar, Tokens(pattern[2..]), "*", place);
    } else {
      StageGlobstar(pattern[1..], place);
      EscapeDotsHead(pattern);
      StageOther(pattern[0], EscapeDots(pattern[1..]), place);
      SpellCons(if pattern[0] == '*' then Star else Lit(pattern[0]), Tokens(pattern[1..]), "*", place);
      if |pattern| > 1 { EscapeDotsHead(pattern[1..]); }
    }
  }

  lemma EscapeStars(pattern: string)
    requires "**" <= pattern
    ensures EscapeDots(pattern) == "**" + EscapeDots(pattern[2..])
  {
    EscapeDotsHead(pattern);
    EscapeDotsHead(pattern[1..]);
    assert pattern[1..][1..] == pattern[2..];
  }

  lemma NotTwoStars(c: char, s: string)
    requires c != '*' || s == "" || s[0] != '*'
    ensures !("**" <= [c] + s)
  {
    assert ([c] + s)[0] == c && (s != "" ==> ([c] + s)[1] == s[0]);
  }

  lemma StageOther(c: char, rest: string, place: string)
    requires c == '*' ==> rest == "" || rest[0] != '*'
    ensures var h := if c == '.' then "\\." else [c];
            ReplaceAll(h + rest, "**", place) == h + ReplaceAll(rest, "**", place)
  {
    hide ReplaceAll;
    if c == '.' {
      var all := ReplaceAll(rest, "**", place);
      assert "\\." + rest == ['\\'] + (['.'] + rest) && "\\." + all == ['\\'] + (['.'] + all);
      NotTwoStars('\\', ['.'] + rest);
      NotTwoStars('.', rest);
      ReplaceMiss('\\', ['.'] + rest, "**", place);
      ReplaceMiss('.', rest, "**", place);
    } else {
      NotTwoStars(c, rest);
      ReplaceMiss(c, rest, "**", place);
    }
  }

  lemma {:induction false} StageStar(ks: seq<Token>)
    requires forall k :: 0 <= k < |ks| && ks[k].Lit? ==> ks[k].c != '*'
    ensures ReplaceAll(SpellAll(ks, "*", PLACEHOLDER), "*", "[^/]*") == Staged(ks)
  {
    hide ReplaceAll, SpellAll, Spell;
    SpellUnfold(ks, "*", PLACEHOLDER);
    SpellUnfold(ks, "[^/]*", PLACEHOLDER);
    if ks == [] {
      ReplaceAllAbsent("", '*', "[^/]*");
    } else {
      StageStar(ks[1..]);
      ReplaceAllConcat(Spell(ks[0], "*", PLACEHOLDER), SpellAll(ks[1..], "*", PLACEHOLDER), '*', "[^/]*");
      StageOne(ks[0]);
    }
  }

  lemma SpellUnfold(ks: seq<Token>, star: string, globstar: string)
    ensures SpellAll(ks, star, globstar) ==
            if ks == [] then "" else Spell(ks[0], star, globstar) + SpellAll(ks[1..], star, globstar)
  {
  }

  lemma StageOne(k: Token)
    requires k.Lit? ==> k.c != '*'
    ensures ReplaceAll(Spell(k, "*", PLACEHOLDER), "*", "[^/]*") == Spell(k, "[^/]*", PLACEHOLDER)
  {
    if k.Star? {
      assert ReplaceAll("*", "*", "[^/]*") == "[^/]*" + ReplaceAll("*"[1..], "*", "[^/]*") == "[^/]*";
    } else {
      ReplaceAllAbsent(Spell(k, "*", PLACEHOLDER), '*', "[^/]*");
    }
  }

  /** After three replacements the text is the tokens, spelled with the placeholder. */
  lemma TranslateIsRestore(pattern: string)
    ensures Translate(pattern) == ReplaceAll(Staged(Tokens(pattern)), PLACEHOLDER, ".*")
  {
    StageGlobstar(pattern, PLACEHOLDER);
    StageStar(Tokens(pattern));
  }

  // ------------------------------------------------------------------
  // The last replacement, read on tokens
  // ------------------------------------------------------------------

  function Lits(w: string): seq<Token> { seq(|w|, i requires 0 <= i < |w| => Lit(w[i])) }

  ghost predicate NoGlobstar(ks: seq<Token>) {
    forall k :: 0 <= k < |ks| ==> !ks[k].Globstar?
  }

  /** Every `**` spelled out as the placeholder. */
  function Flat(ks: seq<Token>): (r: seq<Token>)
    ensures NoGlobstar(r)
  {
    if ks == [] then [] else FlatOne(ks[0]) + Flat(ks[1..])
  }

  function FlatOne(k: Token): seq<Token> {
    if k.Globstar? then Lits(PLACEHOLDER) else [k]
  }

  /** Every leftmost spelled-out placeholder read back as `**`. */
  function Reread(fs: seq<Token>): seq<Token> {
    if fs == [] then []
    else if Lits(PLACEHOLDER) <= fs then [Globstar] + Reread(fs[|PLACEHOLDER|..])
    else [fs[0]] + Reread(fs[1..])
  }

  lemma {:induction false} SpellConcat(a: seq<Token>, b: seq<Token>, star: string, globstar: string)
    ensures SpellAll(a + b, star, globstar) == SpellAll(a, star, globstar) + SpellAll(b, star, globstar)
  {
    if a == [] {
      assert a + b == b;
    } else {
      SpellConcat(a[1..], b, star, globstar);
      assert (a + b)[0] == a[0] && (a + b)[1..] == a[1..] + b;
      Associative(Spell(a[0], star, globstar), SpellAll(a[1..], star, globstar), SpellAll(b, star, globstar));
    }
  }

  lemma {:induction false} SpellLits(w: string, star: string, globstar: string)
    requires '.' !in w
    ensures SpellAll(Lits(w), star, globstar) == w
  {
    if w != "" {
      SpellLits(w[1..], star, globstar);
      assert Lits(w)[1..] == Lits(w[1..]);
      assert w == [w[0]] + w[1..];
    }
  }

  lemma {:induction false} StagedIsFlat(ks: seq<Token>)
    ensures Staged(ks) == SpellAll(Flat(ks), "[^/]*", ".*")
  {
    hide SpellAll, Spell, Flat, FlatOne;
    SpellUnfold(ks, "[^/]*", PLACEHOLDER);
    FlatUnfold(ks);
    if ks == [] {
      SpellUnfold([], "[^/]*", ".*");
    } else {
      StagedIsFlat(ks[1..]);
      SpellConcat(FlatOne(ks[0]), Flat(ks[1..]), "[^/]*", ".*");
      FlatOneSpelled(ks[0]);
    }
  }

  lemma FlatOneSpelled(k: Token)
    ensures SpellAll(FlatOne(k), "[^/]*", ".*") == Spell(k, "[^/]*", PLACEHOLDER)
  {
    if k.Globstar? {
      SpellLits(PLACEHOLDER, "[^/]*", ".*");
    } else {
      assert SpellAll([k], "[^/]*", ".*") == Spell(k, "[^/]*", ".*") + SpellAll([k][1..], "[^/]*", ".*");
    }
  }

  /** Text without regex punctuation starts the spelling exactly when its letters start the tokens. */
  lemma {:induction false} SpelledPrefix(w: string, fs: seq<Token>)
    requires NoGlobstar(fs)
    requires forall i :: 0 <= i < |w| ==> w[i] != '\\' && w[i] != '[' && w[i] != '.'
    ensures w <= SpellAll(fs, "[^/]*", ".*") <==> Lits(w) <= fs
  {
    if w != "" && fs != [] {
      var h, rest := Spell(fs[0], "[^/]*", ".*"), SpellAll(fs[1..], "[^/]*", ".*");
      assert SpellAll(fs, "[^/]*", ".*") == h + rest;
      assert Lits(w) == [Lit(w[0])] + Lits(w[1..]);
      if fs[0] == Lit(w[0]) {
        SpelledPrefix(w[1..], fs[1..]);
        assert (h + rest)[1..] == rest;
        assert w <= h + rest <==> w[1..] <= rest;
        assert Lits(w) <= fs <==> Lits(w[1..]) <= fs[1..];
      } else {
        assert (h + rest)[0] == h[0] != w[0];
      }
    }
  }

  lemma {:induction false} RereadSpelling(fs: seq<Token>)
    requires NoGlobstar(fs)
    ensures ReplaceAll(SpellAll(fs, "[^/]*", ".*"), PLACEHOLDER, ".*") == Intended(Reread(fs))
    decreases |fs|
  {
    if fs == [] {
    } else if Lits(PLACEHOLDER) <= fs {
      var rest := fs[|PLACEHOLDER|..];
      assert fs == Lits(PLACEHOLDER) + rest;
      SpellConcat(Lits(PLACEHOLDER), rest, "[^/]*", ".*");
      SpellLits(PLACEHOLDER, "[^/]*", ".*");
      ReplaceHit(SpellAll(rest, "[^/]*", ".*"), PLACEHOLDER, ".*");
      RereadSpelling(rest);
      assert ([Globstar] + Reread(rest))[1..] == Reread(rest);
    } else {
      SpelledPrefix(PLACEHOLDER, fs);
      RereadSpelling(fs[1..]);
      ReplaceSpelled(fs[0], SpellAll(fs[1..], "[^/]*", ".*"));
      assert ([fs[0]] + Reread(fs[1..]))[1..] == Reread(fs[1..]);
    }
  }

  /** A token that starts no placeholder is left alone by the last replacement. */
  lemma ReplaceSpelled(k: Token, rest: string)
    requires !k.Globstar?
    requires !(PLACEHOLDER <= Spell(k, "[^/]*", ".*") + rest)
    ensures ReplaceAll(Spell(k, "[^/]*", ".*") + rest, PLACEHOLDER, ".*")
         == Spell(k, "[^/]*", ".*") + ReplaceAll(rest, PLACEHOLDER, ".*")
  {
    MissText(Spell(k, "[^/]*", ".*"), rest, PLACEHOLDER, ".*");
  }

  lemma {:induction false} MissText(h: string, rest: string, needle: string, fill: string)
    requires needle != "" && h != "" && !(needle <= h + rest)
    requires forall i :: 1 <= i < |h| ==> h[i] != needle[0]
    ensures ReplaceAll(h + rest, needle, fill) == h + ReplaceAll(rest, needle, fill)
  {
    var tail := h[1..] + rest;
    assert h + rest == [h[0]] + tail;
    ReplaceMiss(h[0], tail, needle, fill);
    if |h| > 1 {
      assert tail[0] == h[1];
      MissText(h[1..], rest, needle, fill);
      assert h == [h[0]] + h[1..];
    } else {
      assert tail == rest;
    }
  }

  // ------------------------------------------------------------------
  // Parsing and matching
  // ------------------------------------------------------------------

  ghost predicate PlainTokens(ks: seq<Token>) {
    forall k :: 0 <= k < |ks| && ks[k].Lit? ==> ks[k].c == '.' || !IsSpecial(ks[k].c)
  }

  lemma {:induction false} ParseIntended(ks: seq<Token>)
    requires PlainTokens(ks)
    ensures ParseRegex(Intended(ks)) == Some(Items(ks))
    ensures Intended(ks) == "" || Intended(ks)[0] !in {'*', '+'}
    ensures Balanced(Intended(ks), 0)
  {
    hide ParseRegex, Balanced, SpellAll, Spell, Items, IsSpecial;
    SpellUnfold(ks, "[^/]*", ".*");
    ItemsUnfold(ks);
    if ks == [] {
      EmptyParses();
    } else {
      ParseIntended(ks[1..]);
      var h, rest := Spell(ks[0], "[^/]*", ".*"), Intended(ks[1..]);
      assert Intended(ks) == h + rest;
      ParseHead(ks[0], rest);
      PlainBalance(ks[0]);
      BalanceSkips(h, rest, 0);
    }
  }

  lemma ItemsUnfold(ks: seq<Token>)
    ensures Items(ks) == if ks == [] then [] else Items([ks[0]]) + Items(ks[1..])
  {
    if ks != [] { assert [ks[0]][1..] == []; }
  }

  lemma EmptyParses()
    ensures ParseRegex("") == Some([]) && Balanced("", 0)
  {
  }

  lemma PlainBalance(k: Token)
    requires k.Lit? ==> k.c == '.' || !IsSpecial(k.c)
    ensures var h := Spell(k, "[^/]*", ".*"); '(' !in h && ')' !in h
  {
  }

  lemma {:induction false} BalanceSkips(h: string, rest: string, open: nat)
    requires '(' !in h && ')' !in h
    ensures Balanced(h + rest, open) <==> Balanced(rest, open)
  {
    if h == "" {
      assert h + rest == rest;
    } else {
      assert (h + rest)[0] == h[0] && (h + rest)[1..] == h[1..] + rest && h[0] in h;
      BalanceSkips(h[1..], rest, open);
    }
  }

  lemma ParseHead(k: Token, rest: string)
    requires k.Lit? ==> k.c == '.' || !IsSpecial(k.c)
    requires rest == "" || rest[0] !in {'*', '+'}
    requires ParseRegex(rest).Some?
    ensures var s := Spell(k, "[^/]*", ".*") + rest;
            s[0] !in {'*', '+'} && ParseRegex(s) == Some(Items([k]) + ParseRegex(rest).value)
  {
    var h := Spell(k, "[^/]*", ".*");
    var s := h + rest;
    assert s[|h|..] == rest;
    assert |rest| > 0 ==> s[|h|] == rest[0];
    assert Items([k]) == [Items([k])[0]];
    assert s[0] == h[0];
    match k
    case Lit(c) =>
      if c == '.' {
        assert s[0] == '\\' && "\\." <= s;
        ParseStep(s, Exactly('.'), 2, false, rest);
      } else {
        assert !("\\." <= s) && !("[^/]" <= s);
        ParseStep(s, Exactly(c), 1, false, rest);
      }
    case Star =>
      assert s[0] == '[' && "[^/]" <= s && s[4] == '*';
      assert !("\\." <= s);
      ParseStep(s, NotSlash, 4, true, rest);
    case Globstar =>
      assert s[1] == '*' && !("\\." <= s) && !("[^/]" <= s);
      ParseStep(s, AnyButLineTerminator, 1, true, rest);
  }

  lemma ParseStep(s: string, cls: CharClass, n: nat, star: bool, rest: string)
    requires s != "" && ParseClass(s) == Some((cls, n))
    requires star == (n < |s| && s[n] == '*') && (n < |s| ==> s[n] != '+')
    requires rest == s[if star then n + 1 else n..] && ParseRegex(rest).Some?
    ensures ParseRegex(s) == Some([Item(cls, star)] + ParseRegex(rest).value)
  {
  }

  lemma StarUnfold(items: seq<Item>, t: string)
    requires items != [] && items[0].star
    ensures Matches(items, t) <==>
            Matches(items[1..], t) || (t != "" && items[0].cls.Has(t[0]) && Matches(items, t[1..]))
  {
  }

  lemma AllNone(p: char -> bool)
    ensures All([], p)
  {
  }

  lemma AllOne(c: char, rest: string, p: char -> bool)
    ensures All([c] + rest, p) <==> p(c) && All(rest, p)
  {
    assert ([c] + rest)[1..] == rest;
    assert forall i :: 0 <= i < |rest| ==> ([c] + rest)[i + 1] == rest[i];
    if All([c] + rest, p) { assert ([c] + rest)[0] == c; }
  }

  /** A starred item takes some prefix made of its class. */
  lemma {:induction false} StarSplits(items: seq<Item>, t: string)
    requires items != [] && items[0].star
    ensures Matches(items, t) <==>
            exists k :: 0 <= k <= |t| && All(t[..k], c => items[0].cls.Has(c)) && Matches(items[1..], t[k..])
    decreases |t|
  {
    hide Matches, All;
    var p := c => items[0].cls.Has(c);
    StarUnfold(items, t);
    if Matches(items, t) {
      if Matches(items[1..], t) {
        AllNone(p);
        assert t[0..] == t && t[..0] == [];
      } else {
        StarSplits(items, t[1..]);
        var k :| 0 <= k <= |t[1..]| && All(t[1..][..k], p) && Matches(items[1..], t[1..][k..]);
        assert t[1..][k..] == t[k + 1..];
        assert t[..k + 1] == [t[0]] + t[1..][..k];
        AllOne(t[0], t[1..][..k], p);
      }
    }
    if k :| 0 <= k <= |t| && All(t[..k], p) && Matches(items[1..], t[k..]) {
      if k == 0 {
        assert t[0..] == t;
      } else {
        StarSplits(items, t[1..]);
        assert t[1..][k - 1..] == t[k..];
        assert t[..k] == [t[0]] + t[1..][..k - 1];
        AllOne(t[0], t[1..][..k - 1], p);
      }
    }
  }

  function NotTerminator(): char -> bool { c => !IsLineTerminator(c) }

  lemma {:induction false} ItemsReadGlob(pattern: string, t: string)
    ensures Matches(Items(Tokens(pattern)), t) <==> GlobReads(NotTerminator(), pattern, t)
    decreases |pattern|
  {
    if pattern != "" {
      var items := Items(Tokens(pattern));
      var n := if "**" <= pattern then 2 else 1;
      assert items[1..] == Items(Tokens(pattern)[1..]) == Items(Tokens(pattern[n..]));
      if pattern[0] == '*' {
        var any := NotTerminator();
        var p := c => items[0].cls.Has(c);
        StarSplits(items, t);
        forall k | 0 <= k <= |t|
          ensures Matches(items[1..], t[k..]) <==> GlobReads(any, pattern[n..], t[k..])
        {
          ItemsReadGlob(pattern[n..], t[k..]);
        }
        if n == 2 {
          assert forall k :: 0 <= k <= |t| ==> (All(t[..k], p) <==> All(t[..k], any));
        } else {
          assert forall k :: 0 <= k <= |t| ==> (All(t[..k], p) <==> All(t[..k], c => c != '/'));
        }
      } else if t != "" {
        ItemsReadGlob(pattern[1..], t[1..]);
      }
    }
  }

  // ------------------------------------------------------------------
  // Which patterns survive the last replacement
  // ------------------------------------------------------------------

  lemma LetterAhead(c: char, us: seq<Token>, pattern: string)
    requires c != '*' && c != PLACEHOLDER[0]
    ensures [Lit(c)] + us <= Flat(Tokens(pattern)) <==>
            pattern != "" && pattern[0] == c && us <= Flat(Tokens(pattern[1..]))
  {
    FlatHead(pattern);
    assert ([Lit(c)] + us)[0] == Lit(c);
    if pattern != "" && pattern[0] == c {
      FlatLitHead(pattern);
      PrefixShift([Lit(c)], us, Flat(Tokens(pattern[1..])));
    }
  }

  /** Skips `w` in the pattern, when it is there. */
  function After(w: string, pattern: string): string {
    if w <= pattern then pattern[|w|..] else ""
  }

  lemma {:induction false} LettersAhead(w: string, u: seq<Token>, pattern: string)
    requires forall i :: 0 <= i < |w| ==> w[i] != '*' && w[i] != PLACEHOLDER[0]
    requires u != []
    ensures Lits(w) + u <= Flat(Tokens(pattern)) <==> w <= pattern && u <= Flat(Tokens(After(w, pattern)))
  {
    if w == "" {
      assert Lits(w) + u == u && pattern[0..] == pattern;
    } else {
      assert Lits(w) + u == [Lit(w[0])] + (Lits(w[1..]) + u);
      LetterAhead(w[0], Lits(w[1..]) + u, pattern);
      if pattern != "" && pattern[0] == w[0] {
        LettersAhead(w[1..], u, pattern[1..]);
        assert w == [w[0]] + w[1..] && pattern == [w[0]] + pattern[1..];
        PrefixShift([w[0]], w[1..], pattern[1..]);
        assert w <= pattern ==> After(w, pattern) == After(w[1..], pattern[1..]);
      }
    }
  }

  lemma FlatLitHead(pattern: string)
    requires pattern != "" && pattern[0] != '*'
    ensures Flat(Tokens(pattern)) == [Lit(pattern[0])] + Flat(Tokens(pattern[1..]))
  {
    assert Tokens(pattern)[1..] == Tokens(pattern[1..]);
  }

  lemma FlatGlobstarHead(pattern: string)
    requires "**" <= pattern
    ensures Flat(Tokens(pattern)) == Lits(PLACEHOLDER) + Flat(Tokens(pattern[2..]))
  {
    assert Tokens(pattern)[1..] == Tokens(pattern[2..]);
  }

  lemma FlatHead(pattern: string)
    ensures var fs := Flat(Tokens(pattern));
            if pattern == "" then fs == []
            else fs != [] && fs[0] == (if "**" <= pattern then Lit(PLACEHOLDER[0])
                                       else if pattern[0] == '*' then Star else Lit(pattern[0]))
  {
  }

  const MARK := "\U{A7}\U{A7}"

  /** Two section signs lie ahead: written out, or brought in by a `**`. */
  lemma MarksAhead(pattern: string)
    ensures Lits(MARK) <= Flat(Tokens(pattern)) <==>
            MARK <= pattern || MARK[..1] + "**" <= pattern || "**" <= pattern
  {
    FlatHead(pattern);
    if "**" <= pattern {
      FlatGlobstarHead(pattern);
    } else if pattern != "" && pattern[0] == MARK[0] {
      FlatLitHead(pattern);
      FlatHead(pattern[1..]);
      var fs := Flat(Tokens(pattern));
      assert Lits(MARK) <= fs <==> |fs| > 1 && fs[1] == Lit(MARK[1]);
    }
  }

  const WORD := "GLOBSTAR"

  /** `ClashHere`, read past the two leading section signs. */
  lemma ClashPastMarks(p2: string)
    ensures ClashHere(MARK + p2) <==>
            (WORD <= p2 && (var q := After(WORD, p2); MARK <= q || MARK[..1] + "**" <= q || "**" <= q))
  {
    var p := MARK + p2;
    PrefixShift(MARK, WORD + MARK, p2);
    PrefixShift(MARK, WORD + (MARK[..1] + "**"), p2);
    PrefixShift(MARK, WORD + "**", p2);
    assert PLACEHOLDER == MARK + (WORD + MARK);
    assert PLACEHOLDER[..11] + "**" == MARK + (WORD + (MARK[..1] + "**"));
    assert PLACEHOLDER[..10] + "**" == MARK + (WORD + "**");
    if WORD <= p2 {
      var q := After(WORD, p2);
      assert p2 == WORD + q;
      PrefixShift(WORD, MARK, q);
      PrefixShift(WORD, MARK[..1] + "**", q);
      PrefixShift(WORD, "**", q);
    } else {
      LongerPrefix(WORD, MARK, p2);
      LongerPrefix(WORD, MARK[..1] + "**", p2);
      LongerPrefix(WORD, "**", p2);
    }
  }

  lemma LongerPrefix<T>(a: seq<T>, b: seq<T>, c: seq<T>)
    ensures a + b <= c ==> a <= c
  {
    if a + b <= c { assert c[..|a|] == (a + b)[..|a|] == a; }
  }

  lemma PrefixShift<T>(a: seq<T>, b: seq<T>, c: seq<T>)
    ensures a + b <= a + c <==> b <= c
  {
    assert (a + c)[|a|..] == c;
    assert |b| <= |c| ==> (a + c)[..|a| + |b|] == a + c[..|b|];
  }

  lemma PlaceholderTokens()
    ensures Lits(PLACEHOLDER) == [Lit(MARK[0])] + ([Lit(MARK[1])] + (Lits(WORD) + Lits(MARK)))
  {
  }

  lemma ClashNeedsMarks(pattern: string)
    requires ClashHere(pattern)
    ensures |pattern| >= 2 && pattern[0] == MARK[0] && pattern[1] == MARK[1]
  {
  }

  lemma AheadNeedsMarks(pattern: string)
    requires pattern != "" && pattern[0] != '*' && Lits(PLACEHOLDER) <= Flat(Tokens(pattern))
    ensures |pattern| >= 2 && pattern[0] == MARK[0] && pattern[1] == MARK[1]
  {
    hide Flat, Tokens, Lits, PLACEHOLDER;
    var p1 := pattern[1..];
    var ahead := [Lit(MARK[1])] + (Lits(WORD) + Lits(MARK));
    PlaceholderTokens();
    FlatLitHead(pattern);
    HeadsAgree(Lit(MARK[0]), ahead, Lit(pattern[0]), Flat(Tokens(p1)));
    WordTokens();
    SecondMark(Lits(WORD) + Lits(MARK), p1);
  }

  lemma HeadsAgree(x: Token, a: seq<Token>, y: Token, b: seq<Token>)
    requires [x] + a <= [y] + b
    ensures x == y && a <= b
  {
    assert ([x] + a)[0] == ([y] + b)[0];
    PrefixShift([x], a, b);
  }

  lemma WordTokens()
    ensures Lits(WORD) + Lits(MARK) != [] && (Lits(WORD) + Lits(MARK))[0] == Lit(WORD[0])
  {
  }

  /** A mark not followed by a mark is not the start of a `**`. */
  lemma SecondMark(rest: seq<Token>, p1: string)
    requires rest != [] && rest[0] == Lit(WORD[0])
    requires [Lit(MARK[1])] + rest <= Flat(Tokens(p1))
    ensures p1 != "" && p1[0] == MARK[1]
  {
    hide Flat, Tokens, Lits;
    var fs := Flat(Tokens(p1));
    assert fs[0] == ([Lit(MARK[1])] + rest)[0] && fs[1] == ([Lit(MARK[1])] + rest)[1];
    FlatHead(p1);
    if "**" <= p1 {
      FlatGlobstarHead(p1);
      SecondIsMark(Flat(Tokens(p1[2..])));
    }
  }

  lemma SecondIsMark(rest: seq<Token>)
    ensures (Lits(PLACEHOLDER) + rest)[1] == Lit(MARK[1]) != Lit(WORD[0])
  {
  }

  /** At a literal, the placeholder lies ahead exactly when the pattern clashes there. */
  lemma ClashAhead(pattern: string)
    requires pattern != "" && pattern[0] != '*'
    ensures Lits(PLACEHOLDER) <= Flat(Tokens(pattern)) <==> ClashHere(pattern)
  {
    if ClashHere(pattern) { ClashNeedsMarks(pattern); }
    if Lits(PLACEHOLDER) <= Flat(Tokens(pattern)) { AheadNeedsMarks(pattern); }
    if |pattern| >= 2 && pattern[0] == MARK[0] && pattern[1] == MARK[1] {
      MarkedClashAhead(pattern[2..]);
      assert pattern == MARK + pattern[2..];
    }
  }

  lemma MarkedClashAhead(p2: string)
    ensures Lits(PLACEHOLDER) <= Flat(Tokens(MARK + p2)) <==> ClashHere(MARK + p2)
  {
    hide Flat, Tokens, ClashHere;
    var p, p1 := MARK + p2, [MARK[1]] + p2;
    var tail := Lits(WORD) + Lits(MARK);
    PlaceholderTokens();
    assert p[1..] == p1 && p1[1..] == p2;
    FlatLitHead(p);
    FlatLitHead(p1);
    PrefixShift([Lit(MARK[0])], [Lit(MARK[1])] + tail, Flat(Tokens(p1)));
    PrefixShift([Lit(MARK[1])], tail, Flat(Tokens(p2)));
    LettersAhead(WORD, Lits(MARK), p2);
    MarksAhead(After(WORD, p2));
    ClashPastMarks(p2);
  }

  lemma RereadHit(fs: seq<Token>)
    ensures Reread(Lits(PLACEHOLDER) + fs) == [Globstar] + Reread(fs)
  {
    assert (Lits(PLACEHOLDER) + fs)[|PLACEHOLDER|..] == fs;
  }

  lemma RereadMiss(k: Token, fs: seq<Token>)
    requires !(Lits(PLACEHOLDER) <= [k] + fs)
    ensures Reread([k] + fs) == [k] + Reread(fs)
  {
    assert ([k] + fs)[1..] == fs;
  }

  // ------------------------------------------------------------------
  // A clash always shows: the shortest text the wrong expression accepts
  // ------------------------------------------------------------------

  /** The characters a token list insists on. */
  function Skeleton(ks: seq<Token>): string {
    if ks == [] then "" else (if ks[0].Lit? then [ks[0].c] else "") + Skeleton(ks[1..])
  }

  function Globstars(ks: seq<Token>): nat {
    if ks == [] then 0 else (if ks[0].Globstar? then 1 else 0) + Globstars(ks[1..])
  }

  /** A list of tokens accepts its own skeleton, every wildcard standing for nothing. */
  lemma {:induction false} SkeletonMatches(ks: seq<Token>)
    ensures Matches(Items(ks), Skeleton(ks))
  {
    if ks != [] {
      SkeletonMatches(ks[1..]);
      assert Items(ks)[1..] == Items(ks[1..]);
      if ks[0].Lit? {
        assert Skeleton(ks)[1..] == Skeleton(ks[1..]);
      } else {
        assert Skeleton(ks) == Skeleton(ks[1..]);
      }
    }
  }

  /** What a leading wildcard stands for can be cut off. */
  lemma CutWildcard(any: char -> bool, pattern: string, t: string) returns (k: nat)
    requires pattern != "" && pattern[0] == '*' && GlobReads(any, pattern, t)
    ensures k <= |t| && GlobReads(any, pattern[if "**" <= pattern then 2 else 1..], t[k..])
  {
    var n := if "**" <= pattern then 2 else 1;
    k :| 0 <= k <= |t| && GlobReads(any, pattern[n..], t[k..]);
  }

  lemma SkeletonHead(pattern: string)
    requires pattern != ""
    ensures var n := if "**" <= pattern then 2 else 1;
            Skeleton(Tokens(pattern)) ==
                (if pattern[0] == '*' then "" else [pattern[0]]) + Skeleton(Tokens(pattern[n..]))
  {
  }

  /** Whatever a glob accepts is at least as long as its skeleton, and no other text is as short. */
  lemma {:induction false} SkeletonShortest(any: char -> bool, pattern: string, t: string)
    requires GlobReads(any, pattern, t)
    ensures |t| >= |Skeleton(Tokens(pattern))|
    ensures |t| == |Skeleton(Tokens(pattern))| ==> t == Skeleton(Tokens(pattern))
    decreases |pattern|
  {
    if pattern != "" {
      SkeletonHead(pattern);
      if pattern[0] == '*' {
        var k := CutWildcard(any, pattern, t);
        SkeletonShortest(any, pattern[if "**" <= pattern then 2 else 1..], t[k..]);
        assert t[0..] == t;
      } else {
        SkeletonShortest(any, pattern[1..], t[1..]);
        assert t == [t[0]] + t[1..];
      }
    }
  }

  lemma SkeletonCons(k: Token, ks: seq<Token>)
    ensures Skeleton([k] + ks) == (if k.Lit? then [k.c] else "") + Skeleton(ks)
  {
    assert ([k] + ks)[1..] == ks;
  }

  lemma {:induction false} SkeletonConcat(a: seq<Token>, b: seq<Token>)
    ensures Skeleton(a + b) == Skeleton(a) + Skeleton(b)
  {
    if a == [] {
      assert a + b == b;
    } else {
      SkeletonConcat(a[1..], b);
      SkeletonConcatStep(a[0], a[1..], b);
      assert a == [a[0]] + a[1..];
    }
  }

  lemma SkeletonConcatStep(k: Token, a: seq<Token>, b: seq<Token>)
    requires Skeleton(a + b) == Skeleton(a) + Skeleton(b)
    ensures Skeleton([k] + a + b) == Skeleton([k] + a) + Skeleton(b)
  {
    Associative([k], a, b);
    SkeletonCons(k, a);
    SkeletonCons(k, a + b);
    Associative(if k.Lit? then [k.c] else "", Skeleton(a), Skeleton(b));
  }

  lemma {:induction false} SkeletonLits(w: string)
    ensures Skeleton(Lits(w)) == w
  {
    if w != "" {
      SkeletonLits(w[1..]);
      assert Lits(w)[1..] == Lits(w[1..]);
    }
  }

  /** Rereading removes one placeholder of text for each `**` it finds. */
  lemma {:induction false} RereadLength(fs: seq<Token>)
    requires NoGlobstar(fs)
    ensures |Skeleton(fs)| == |Skeleton(Reread(fs))| + |PLACEHOLDER| * Globstars(Reread(fs))
    decreases |fs|
  {
    if fs != [] {
      if Lits(PLACEHOLDER) <= fs {
        var rest := fs[|PLACEHOLDER|..];
        RereadLength(rest);
        assert fs == Lits(PLACEHOLDER) + rest;
        SkeletonConcat(Lits(PLACEHOLDER), rest);
        SkeletonLits(PLACEHOLDER);
        assert Reread(fs)[1..] == Reread(rest);
      } else {
        RereadLength(fs[1..]);
        assert Reread(fs)[1..] == Reread(fs[1..]);
      }
    }
  }

  lemma {:induction false} FlatLength(ks: seq<Token>)
    ensures |Skeleton(Flat(ks))| == |Skeleton(ks)| + |PLACEHOLDER| * Globstars(ks)
  {
    if ks != [] {
      FlatLength(ks[1..]);
      var h := if ks[0].Globstar? then Lits(PLACEHOLDER) else [ks[0]];
      SkeletonConcat(h, Flat(ks[1..]));
      SkeletonLits(PLACEHOLDER);
      assert [ks[0]][1..] == [];
    }
  }

  ghost function Found(fs: seq<Token>): nat { Globstars(Reread(fs)) }

  lemma FoundHit(fs: seq<Token>)
    requires Lits(PLACEHOLDER) <= fs
    ensures Found(fs) == 1 + Found(fs[|PLACEHOLDER|..])
  {
    assert Reread(fs)[1..] == Reread(fs[|PLACEHOLDER|..]);
  }

  lemma FoundMiss(fs: seq<Token>)
    requires NoGlobstar(fs) && fs != [] && !(Lits(PLACEHOLDER) <= fs)
    ensures Found(fs) == Found(fs[1..])
  {
    assert Reread(fs)[1..] == Reread(fs[1..]);
  }

  /** Leftmost search finds as many placeholders as any other: skipping `n` tokens never gains,
      and loses at most one placeholder when `n` is no longer than one. */
  lemma {:induction false} GreedyIsBest(fs: seq<Token>, n: nat)
    requires NoGlobstar(fs) && n <= |fs|
    ensures Found(fs[n..]) <= Found(fs)
    ensures n <= |PLACEHOLDER| ==> Found(fs) <= 1 + Found(fs[n..])
    decreases |fs|, n
  {
    if n == 0 {
      assert fs[0..] == fs;
    } else if Lits(PLACEHOLDER) <= fs {
      FoundHit(fs);
      if n <= |PLACEHOLDER| {
        GreedyIsBest(fs[n..], |PLACEHOLDER| - n);
        Skip(fs, n, |PLACEHOLDER|);
      } else {
        GreedyIsBest(fs[|PLACEHOLDER|..], n - |PLACEHOLDER|);
        Skip(fs, |PLACEHOLDER|, n);
      }
    } else {
      FoundMiss(fs);
      GreedyIsBest(fs[1..], n - 1);
      Skip(fs, 1, n);
    }
  }

  lemma Skip<T>(s: seq<T>, m: nat, n: nat)
    requires m <= n <= |s|
    ensures s[m..][n - m..] == s[n..]
  {
  }

  lemma {:induction false} FoundAtLeast(ks: seq<Token>)
    ensures Globstars(ks) <= Found(Flat(ks))
  {
    if ks != [] {
      FoundAtLeast(ks[1..]);
      var fs := Flat(ks);
      if ks[0].Globstar? {
        FoundHit(fs);
        assert fs[|PLACEHOLDER|..] == Flat(ks[1..]);
      } else {
        GreedyIsBest(fs, 1);
        assert fs[1..] == Flat(ks[1..]);
      }
    }
  }

  /** What the wrong reading insists on is never longer than what the pattern insists on,
      and is shorter when more placeholders are found than there are `**`. */
  lemma RereadNoLonger(ks: seq<Token>)
    ensures |Skeleton(Reread(Flat(ks)))| <= |Skeleton(ks)|
    ensures Globstars(ks) < Found(Flat(ks)) ==> |Skeleton(Reread(Flat(ks)))| < |Skeleton(ks)|
  {
    FoundAtLeast(ks);
    FlatLength(ks);
    RereadLength(Flat(ks));
  }

  lemma {:induction false} LitTokens(w: string, rest: string)
    requires '*' !in w
    ensures Tokens(w + rest) == Lits(w) + Tokens(rest)
  {
    hide Tokens, Lits;
    LitsUnfold(w);
    if w == "" {
      assert w + rest == rest;
    } else {
      LitTokens(w[1..], rest);
      assert w + rest == [w[0]] + (w[1..] + rest);
      TokensLit(w[0], w[1..] + rest);
      Associative([Lit(w[0])], Lits(w[1..]), Tokens(rest));
    }
  }

  lemma LitsUnfold(w: string)
    ensures Lits(w) == if w == "" then [] else [Lit(w[0])] + Lits(w[1..])
  {
  }

  lemma {:induction false} FlatLits(w: string)
    ensures Flat(Lits(w)) == Lits(w)
    ensures Globstars(Lits(w)) == 0
  {
    if w != "" {
      FlatLits(w[1..]);
      assert Lits(w) == [Lit(w[0])] + Lits(w[1..]);
      FlatCons(Lit(w[0]), Lits(w[1..]));
    }
  }

  lemma FlatCons(k: Token, ks: seq<Token>)
    ensures Flat([k] + ks) == FlatOne(k) + Flat(ks)
    ensures Globstars([k] + ks) == (if k.Globstar? then 1 else 0) + Globstars(ks)
  {
    assert ([k] + ks)[1..] == ks;
  }

  lemma {:induction false} FlatConcat(a: seq<Token>, b: seq<Token>)
    ensures Flat(a + b) == Flat(a) + Flat(b)
    ensures Globstars(a + b) == Globstars(a) + Globstars(b)
  {
    if a == [] {
      assert a + b == b;
    } else {
      FlatConcat(a[1..], b);
      FlatConcatStep(a[0], a[1..], b);
      assert a == [a[0]] + a[1..];
    }
  }

  lemma FlatConcatStep(k: Token, a: seq<Token>, b: seq<Token>)
    requires Flat(a + b) == Flat(a) + Flat(b)
    requires Globstars(a + b) == Globstars(a) + Globstars(b)
    ensures Flat([k] + a + b) == Flat([k] + a) + Flat(b)
    ensures Globstars([k] + a + b) == Globstars([k] + a) + Globstars(b)
  {
    Associative([k], a, b);
    FlatCons(k, a);
    FlatCons(k, a + b);
    Associative(FlatOne(k), Flat(a), Flat(b));
  }

  /** A placeholder written out in the pattern is lost. */
  lemma WrittenOut(rest: string)
    ensures var ks := Tokens(PLACEHOLDER + rest);
            |Skeleton(Reread(Flat(ks)))| < |Skeleton(ks)|
  {
    var ks := Tokens(PLACEHOLDER + rest);
    LitTokens(PLACEHOLDER, rest);
    FlatLits(PLACEHOLDER);
    FlatConcat(Lits(PLACEHOLDER), Tokens(rest));
    FoundHit(Flat(ks));
    assert Flat(ks)[|PLACEHOLDER|..] == Flat(Tokens(rest));
    FoundAtLeast(Tokens(rest));
    RereadNoLonger(ks);
  }

  /** `head` runs into the following `**`: together they read as a placeholder and then `tail`. */
  lemma RunsInto(head: string, tail: string, rest: string)
    requires '*' !in head && head + PLACEHOLDER == PLACEHOLDER + tail
    ensures Reread(Flat(Tokens(head + "**" + rest))) == [Globstar] + Reread(Lits(tail) + Flat(Tokens(rest)))
    ensures Tokens(head + "**" + rest) == Lits(head) + Tokens("**" + rest)
  {
    var star := "**" + rest;
    assert head + "**" + rest == head + star && star[2..] == rest;
    LitTokens(head, star);
    FlatLits(head);
    FlatConcat(Lits(head), Tokens(star));
    FlatGlobstarHead(star);
    Overlap(head, PLACEHOLDER, tail, Flat(Tokens(rest)));
    RereadHit(Lits(tail) + Flat(Tokens(rest)));
  }

  lemma Overlap(head: string, mid: string, tail: string, fs: seq<Token>)
    requires head + mid == mid + tail
    ensures Lits(head) + (Lits(mid) + fs) == Lits(mid) + (Lits(tail) + fs)
  {
    assert Lits(head) + Lits(mid) == Lits(head + mid);
    assert Lits(mid) + Lits(tail) == Lits(mid + tail);
    assert Lits(head) + (Lits(mid) + fs) == (Lits(head) + Lits(mid)) + fs;
  }

  /** Text that does not start with two marks keeps its first character when reread. */
  lemma RereadKeeps(w: string, fs: seq<Token>)
    requires |w| >= 2 && (w[0] != MARK[0] || w[1] != MARK[1])
    ensures Reread(Lits(w) + fs) == [Lit(w[0])] + Reread(Lits(w[1..]) + fs)
    ensures Skeleton(Reread(Lits(w) + fs)) == [w[0]] + Skeleton(Reread(Lits(w[1..]) + fs))
  {
    var tail := Lits(w[1..]) + fs;
    assert Lits(w) + fs == [Lit(w[0])] + tail;
    assert Lits(PLACEHOLDER)[0] == Lit(MARK[0]) && Lits(PLACEHOLDER)[1] == Lit(MARK[1]);
    assert ([Lit(w[0])] + tail)[1] == tail[0] == Lit(w[1]);
    RereadMiss(Lit(w[0]), tail);
    assert ([Lit(w[0])] + Reread(tail))[1..] == Reread(tail);
  }

  lemma SkeletonStart(w: string, ks: seq<Token>)
    requires |w| >= 2
    ensures var s := Skeleton(Lits(w) + ks); |s| >= 2 && s[0] == w[0] && s[1] == w[1]
  {
  }

  lemma WildcardSkeleton(ks: seq<Token>)
    ensures Skeleton([Globstar] + ks) == Skeleton(ks)
  {
    SkeletonCons(Globstar, ks);
  }

  /** The placeholder without its last section sign runs into a `**`. */
  lemma OneMarkDiffers(rest: string)
    ensures var p := PLACEHOLDER[..11] + "**" + rest; Skeleton(Reread(Flat(Tokens(p)))) != Skeleton(Tokens(p))
  {
    hide Reread, Flat, Tokens, Skeleton, Lits;
    var head, tail := PLACEHOLDER[..11], PLACEHOLDER[1..];
    var fs := Flat(Tokens(rest));
    OneMarkShift();
    RunsInto(head, tail, rest);
    SkeletonStart(head, Tokens("**" + rest));
    WildcardSkeleton(Reread(Lits(tail) + fs));
    RereadKeeps(tail, fs);
    RereadKeeps(tail[1..], fs);
    assert tail[1..][0] == 'G' && head[1] == MARK[1];
    assert Skeleton(Reread(Lits(tail) + fs))[1] == 'G';
  }

  /** So does the placeholder without its last two. */
  lemma TwoMarksDiffer(rest: string)
    ensures var p := PLACEHOLDER[..10] + "**" + rest; Skeleton(Reread(Flat(Tokens(p)))) != Skeleton(Tokens(p))
  {
    hide Reread, Flat, Tokens, Skeleton, Lits;
    var head, tail := PLACEHOLDER[..10], PLACEHOLDER[2..];
    var fs := Flat(Tokens(rest));
    TwoMarkShift();
    RunsInto(head, tail, rest);
    SkeletonStart(head, Tokens("**" + rest));
    WildcardSkeleton(Reread(Lits(tail) + fs));
    RereadKeeps(tail, fs);
    assert tail[0] == 'G' && head[0] == MARK[0];
    assert Skeleton(Reread(Lits(tail) + fs))[0] == 'G';
  }

  lemma ClashHereDiffers(pattern: string)
    requires ClashHere(pattern)
    ensures Skeleton(Reread(Flat(Tokens(pattern)))) != Skeleton(Tokens(pattern))
  {
    hide Reread, Flat, Tokens, Skeleton;
    if PLACEHOLDER <= pattern {
      assert pattern == PLACEHOLDER + pattern[12..];
      WrittenOut(pattern[12..]);
    } else if PLACEHOLDER[..11] + "**" <= pattern {
      assert pattern == PLACEHOLDER[..11] + "**" + pattern[13..];
      OneMarkDiffers(pattern[13..]);
    } else {
      assert pattern == PLACEHOLDER[..10] + "**" + pattern[12..];
      TwoMarksDiffer(pattern[12..]);
    }
  }

  lemma OneMarkShift()
    ensures PLACEHOLDER[..11] + PLACEHOLDER == PLACEHOLDER + PLACEHOLDER[1..]
  {
  }

  lemma TwoMarkShift()
    ensures PLACEHOLDER[..10] + PLACEHOLDER == PLACEHOLDER + PLACEHOLDER[2..]
  {
  }

  lemma SkeletonConsDiffers(k: Token, a: seq<Token>, b: seq<Token>)
    requires Skeleton(a) != Skeleton(b)
    ensures Skeleton([k] + a) != Skeleton([k] + b)
  {
    SkeletonCons(k, a);
    SkeletonCons(k, b);
    var h := if k.Lit? then [k.c] else "";
    assert (h + Skeleton(a))[|h|..] == Skeleton(a);
    assert (h + Skeleton(b))[|h|..] == Skeleton(b);
  }

  lemma {:induction false} ClashDiffers(pattern: string)
    requires Clash(pattern)
    ensures Skeleton(Reread(Flat(Tokens(pattern)))) != Skeleton(Tokens(pattern))
  {
    if ClashHere(pattern) {
      ClashHereDiffers(pattern);
    } else {
      var n := if "**" <= pattern then 2 else 1;
      var k := Tokens(pattern)[0];
      var fs := Flat(Tokens(pattern[n..]));
      if n == 2 {
        if ClashHere(pattern[1..]) { ClashNeedsMarks(pattern[1..]); }
        assert pattern[1..][1..] == pattern[2..];
      }
      ClashDiffers(pattern[n..]);
      RereadHead(pattern);
      assert Tokens(pattern) == [k] + Tokens(pattern[n..]);
      SkeletonConsDiffers(k, Reread(fs), Tokens(pattern[n..]));
    }
  }

  /** Where the pattern does not clash, its first token is read back as it is. */
  lemma RereadHead(pattern: string)
    requires pattern != "" && !ClashHere(pattern)
    ensures var n := if "**" <= pattern then 2 else 1;
            Reread(Flat(Tokens(pattern))) == [Tokens(pattern)[0]] + Reread(Flat(Tokens(pattern[n..])))
  {
    if "**" <= pattern {
      FlatGlobstarHead(pattern);
      RereadHit(Flat(Tokens(pattern[2..])));
    } else {
      var fs := Flat(Tokens(pattern[1..]));
      if pattern[0] == '*' {
        assert Tokens(pattern)[1..] == Tokens(pattern[1..]);
        assert ([Star] + fs)[0] != Lits(PLACEHOLDER)[0];
        RereadMiss(Star, fs);
      } else {
        ClashAhead(pattern);
        FlatLitHead(pattern);
        RereadMiss(Lit(pattern[0]), fs);
      }
    }
  }

  // ------------------------------------------------------------------
  // Main results
  // ------------------------------------------------------------------

  lemma {:induction false} SafeReread(pattern: string)
    requires !Clash(pattern)
    ensures Reread(Flat(Tokens(pattern))) == Tokens(pattern)
  {
    if pattern != "" {
      var n := if "**" <= pattern then 2 else 1;
      if n == 2 { assert !Clash(pattern[1..]) && pattern[1..][1..] == pattern[2..]; }
      RereadHead(pattern);
      SafeReread(pattern[n..]);
      assert Tokens(pattern) == [Tokens(pattern)[0]] + Tokens(pattern[n..]);
    }
  }

  lemma {:induction false} RereadPlain(fs: seq<Token>)
    requires PlainTokens(fs)
    ensures PlainTokens(Reread(fs))
    decreases |fs|
  {
    if fs != [] {
      if Lits(PLACEHOLDER) <= fs { RereadPlain(fs[|PLACEHOLDER|..]); } else { RereadPlain(fs[1..]); }
    }
  }

  lemma {:induction false} FlatPlain(ks: seq<Token>)
    requires PlainTokens(ks)
    ensures PlainTokens(Flat(ks))
  {
    hide Flat, FlatOne;
    FlatUnfold(ks);
    if ks != [] {
      FlatPlain(ks[1..]);
      FlatOnePlain(ks[0]);
    }
  }

  lemma FlatUnfold(ks: seq<Token>)
    ensures Flat(ks) == if ks == [] then [] else FlatOne(ks[0]) + Flat(ks[1..])
  {
  }

  lemma FlatOnePlain(k: Token)
    requires PlainTokens([k])
    ensures PlainTokens(FlatOne(k))
  {
    assert [k][0] == k;
    assert forall i :: 0 <= i < |PLACEHOLDER| ==> !IsSpecial(PLACEHOLDER[i]);
  }

  lemma TokensPlain(pattern: string)
    requires Plain(pattern)
    ensures PlainTokens(Tokens(pattern))
  {
    hide Tokens, IsSpecial;
  }

  /** The expression built for a plain pattern always parses, and this is what it is. */
  lemma TranslationParses(pattern: string)
    requires Plain(pattern)
    ensures ParseRegex(Translate(pattern)) == Some(Items(Reread(Flat(Tokens(pattern)))))
    ensures Balanced(Translate(pattern), 0)
  {
    hide ParseRegex, Translate, Reread, Flat, Tokens, Staged, Intended, Items, PlainTokens, Balanced;
    var ks := Tokens(pattern);
    TranslateIsRestore(pattern);
    StagedIsFlat(ks);
    RereadSpelling(Flat(ks));
    TokensPlain(pattern);
    FlatPlain(ks);
    RereadPlain(Flat(ks));
    ParseIntended(Reread(Flat(ks)));
  }

  lemma PlainMatches(pattern: string, file: string)
    requires Plain(pattern)
    ensures MatchesPattern(file, pattern) == Some(Matches(Items(Reread(Flat(Tokens(pattern)))), file))
  {
    hide ParseRegex, Translate, Reread, Flat, Tokens, Items, Balanced, Plain, Matches;
    TranslationParses(pattern);
  }

  /** The regular expression accepts exactly what the glob says, for every file name,
      if and only if the pattern has none of the three clashing texts. */
  lemma MatchesPatternIsGlob(pattern: string)
    requires Plain(pattern)
    ensures (forall file :: MatchesPattern(file, pattern) == Some(GlobReads(NotTerminator(), pattern, file)))
            <==> !Clash(pattern)
  {
    hide MatchesPattern, Matches, GlobReads, Tokens, Flat, Reread, Items, Skeleton, Clash, Plain;
    var ks := Tokens(pattern);
    if Clash(pattern) {
      var file := Skeleton(Reread(Flat(ks)));
      PlainMatches(pattern, file);
      SkeletonMatches(Reread(Flat(ks)));
      assert MatchesPattern(file, pattern) == Some(true);
      if GlobReads(NotTerminator(), pattern, file) {
        SkeletonShortest(NotTerminator(), pattern, file);
        RereadNoLonger(ks);
        ClashDiffers(pattern);
        assert false;
      }
    } else {
      SafeReread(pattern);
      forall file ensures MatchesPattern(file, pattern) == Some(GlobReads(NotTerminator(), pattern, file)) {
        PlainMatches(pattern, file);
        ItemsReadGlob(pattern, file);
      }
    }
  }

  /** On one-line file names `**` is any text whatever. */
  lemma {:induction false} OneLineGlob(pattern: string, t: string)
    requires All(t, NotTerminator())
    ensures GlobReads(NotTerminator(), pattern, t) <==> GlobMatch(pattern, t)
    decreases |pattern|
  {
    if pattern != "" {
      var n := if "**" <= pattern then 2 else 1;
      if pattern[0] == '*' {
        forall k | 0 <= k <= |t|
          ensures GlobReads(NotTerminator(), pattern[n..], t[k..]) <==> GlobReads(c => true, pattern[n..], t[k..])
        {
          OneLineGlob(pattern[n..], t[k..]);
        }
      } else if t != "" {
        OneLineGlob(pattern[1..], t[1..]);
      }
    }
  }

  /** The documented behaviour: `**` any text, `*` any text without a slash. */
  lemma OneLineFilesMatchGlob(file: string, pattern: string)
    requires Plain(pattern) && !Clash(pattern) && All(file, NotTerminator())
    ensures MatchesPattern(file, pattern) == Some(GlobMatch(pattern, file))
  {
    MatchesPatternIsGlob(pattern);
    OneLineGlob(pattern, file);
  }

  lemma {:induction false} GlobstarReads(any: char -> bool, t: string)
    ensures GlobReads(any, "**", t) <==> All(t, any)
  {
    assert "**"[2..] == "";
    if All(t, any) {
      assert t[..|t|] == t && t[|t|..] == "";
    }
    if GlobReads(any, "**", t) {
      var k :| 0 <= k <= |t| && All(t[..k], any) && GlobReads(any, ""[..], t[k..]);
      assert t[..k] == t;
    }
  }

  lemma OneLineIs(file: string)
    ensures All(file, NotTerminator()) <==> forall c <- file :: c !in {'\n', '\r', '\U{2028}', '\U{2029}'}
  {
    forall c ensures NotTerminator()(c) <==> c !in {'\n', '\r', '\U{2028}', '\U{2029}'} {}
    if All(file, NotTerminator()) {
      forall c | c in file ensures NotTerminator()(c) { var i :| 0 <= i < |file| && file[i] == c; }
    } else {
      var i :| 0 <= i < |file| && !NotTerminator()(file[i]);
      assert file[i] in file;
    }
  }

  /** Patterns of which the lemmas speak: those without the punctuation of expressions, dots and stars apart. */
  lemma PlainIff(pattern: string)
    ensures Plain(pattern) <==>
            forall c <- pattern :: c !in {'\\', '^', '$', '+', '?', '(', ')', '[', ']', '{', '}', '|'}
  {
    forall c
      ensures !IsSpecial(c) || c == '.' || c == '*' <==>
              c !in {'\\', '^', '$', '+', '?', '(', ')', '[', ']', '{', '}', '|'}
    {
      SpecialIs(c);
    }
    if !Plain(pattern) {
      var i :| 0 <= i < |pattern| && IsSpecial(pattern[i]) && pattern[i] != '.' && pattern[i] != '*';
      assert pattern[i] in pattern;
    } else {
      forall c | c in pattern ensures !IsSpecial(c) || c == '.' || c == '*' {
        var i :| 0 <= i < |pattern| && pattern[i] == c;
      }
    }
  }

  lemma SpecialIs(c: char)
    ensures IsSpecial(c) <==> c in {'\\', '^', '$', '.', '*', '+', '?', '(', ')', '[', ']', '{', '}', '|'}
  {
    var s := "\\^$.*+?()[]{}|";
    assert s[0] == '\\' && s[1] == '^' && s[2] == '$' && s[3] == '.' && s[4] == '*' && s[5] == '+' && s[6] == '?';
    assert s[7] == '(' && s[8] == ')' && s[9] == '[' && s[10] == ']' && s[11] == '{' && s[12] == '}' && s[13] == '|';
  }

  /** A file name is matched as documented by every pattern exactly when it is on one line. */
  lemma OneLineIff(file: string)
    ensures (forall pattern :: Plain(pattern) && !Clash(pattern) ==>
            MatchesPattern(file, pattern) == Some(GlobMatch(pattern, file)))
            <==> forall c <- file :: c !in {'\n', '\r', '\U{2028}', '\U{2029}'}
  {
    OneLineIs(file);
    if All(file, NotTerminator()) {
      forall pattern | Plain(pattern) && !Clash(pattern)
        ensures MatchesPattern(file, pattern) == Some(GlobMatch(pattern, file))
      {
        OneLineFilesMatchGlob(file, pattern);
      }
    } else {
      assert Plain("**") && !Clash("**");
      MatchesPatternIsGlob("**");
      GlobstarReads(NotTerminator(), file);
      GlobstarReads(c => true, file);
    }
  }

  lemma {:induction false} RereadShort(fs: seq<Token>)
    requires |fs| < |PLACEHOLDER|
    ensures Reread(fs) == fs
  {
    if fs != [] { RereadShort(fs[1..]); }
  }

  /** A pattern without the placeholder in it can still be misread. */
  lemma MisreadPattern()
    ensures var pattern, file := PLACEHOLDER[..10] + "**", PLACEHOLDER[2..];
            && Plain(pattern)
            && (forall i :: 0 <= i <= |pattern| ==> !(PLACEHOLDER <= pattern[i..]))
            && MatchesPattern(file, pattern) == Some(true)
            && !GlobMatch(pattern, file)
  {
    var head, tail := PLACEHOLDER[..10], PLACEHOLDER[2..];
    var pattern := head + "**";
    assert Plain(pattern);
    assert forall i :: 0 <= i <= |pattern| ==> !(PLACEHOLDER <= pattern[i..]) by {
      assert pattern[10] != PLACEHOLDER[10];
      assert forall i :: 0 < i <= |pattern| ==> |pattern[i..]| < |PLACEHOLDER|;
    }
    assert MatchesPattern(tail, pattern) == Some(true) by { MisreadAccepts(pattern); }
    assert pattern[0] != tail[0];
  }

  lemma MisreadAccepts(pattern: string)
    requires pattern == PLACEHOLDER[..10] + "**" && Plain(pattern)
    ensures MatchesPattern(PLACEHOLDER[2..], pattern) == Some(true)
  {
    var head, tail := PLACEHOLDER[..10], PLACEHOLDER[2..];
    var ks := [Globstar] + Lits(tail);
    assert Reread(Flat(Tokens(pattern))) == ks by {
      assert pattern == head + "**" + "";
      TwoMarkShift();
      RunsInto(head, tail, "");
      assert Lits(tail) + Flat(Tokens("")) == Lits(tail);
      RereadShort(Lits(tail));
    }
    PlainMatches(pattern, tail);
    SkeletonCons(Globstar, Lits(tail));
    SkeletonLits(tail);
    assert Skeleton(ks) == tail;
    SkeletonMatches(ks);
  }
}
