/** What the dump transformer does to a whole line before its lexer sees it: a line that mentions the
    sandbox mode is dropped, and an SQL-mode statement bound for another engine loses a mode. */
module MysqlEdits {
  import opened Wrappers
  import opened MysqlLexer

  const PHRASE := "enable the sandbox mode"
  const MODE := "NO_AUTO_CREATE_USER"

  /** Lowering ASCII is enough: no other character lowers to a letter of the phrase. */
  predicate Mentions(line: string) {
    exists i :: 0 <= i <= |line| && Peek(Lower(line), i, PHRASE)
  }

  /** Case folding of the regular expressions: the long s and the Kelvin sign fold too. */
  function FoldChar(c: char): char {
    if c == '\U{17F}' then 's' else if c == '\U{212A}' then 'k' else LowerChar(c)
  }

  predicate FoldedAt(s: string, i: nat, word: string) {
    i + |word| <= |s| && forall k :: 0 <= k < |word| ==> FoldChar(s[i + k]) == FoldChar(word[k])
  }

  predicate Occurs(s: string, word: string) {
    exists i :: 0 <= i <= |s| && FoldedAt(s, i, word)
  }

  function SkipSpace(s: string, i: nat): (j: nat)
    ensures i <= j
    decreases |s| - i
  {
    if i < |s| && s[i] in {' ', '\t', '\n', '\r', '\U{0C}'} then SkipSpace(s, i + 1) else i
  }

  function SkipDigits(s: string, i: nat): nat
    decreases |s| - i
  {
    if i < |s| && '0' <= s[i] <= '9' then SkipDigits(s, i + 1) else i
  }

  /** Past one or more blanks. */
  function Spaces(s: string, i: nat): Option<nat> {
    if SkipSpace(s, i) > i then Some(SkipSpace(s, i)) else None
  }

  /** Past the opening of a comment that may hold the statement. */
  function Opening(s: string, i: nat): Option<nat> {
    if !Peek(s, i, "/*") then Some(i)
    else
      var j := i + 2;
      var k := if FoldedAt(s, j, "M!") then j + 2 else if Peek(s, j, "!") then j + 1 else j;
      Spaces(s, SkipDigits(s, k))
  }

  /** Past SESSION and its blanks, if it stands here. */
  function PastSession(s: string, i: nat): Option<nat> {
    if FoldedAt(s, i, "SESSION") then Spaces(s, i + 7) else Some(i)
  }

  predicate SetsVariable(s: string, at: Option<nat>) {
    at.Some? && FoldedAt(s, at.value, "sql_mode") && Peek(s, SkipSpace(s, at.value + 8), "=")
  }

  /** The line sets the SQL mode, perhaps for the session, perhaps inside a comment. */
  predicate SetsSqlMode(s: string) {
    var at := Opening(s, SkipSpace(s, 0));
    at.Some? && FoldedAt(s, at.value, "SET") &&
    var named := Spaces(s, at.value + 3);
    named.Some? && SetsVariable(s, PastSession(s, named.value))
  }

  predicate Blanks(s: string, i: nat, j: nat) {
    i <= j <= |s| && forall k :: i <= k < j ==> s[k] in {' ', '\t', '\n', '\r', '\U{0C}'}
  }

  predicate Numerals(s: string, i: nat, j: nat) {
    i <= j <= |s| && forall k :: i <= k < j ==> '0' <= s[k] <= '9'
  }

  /** Between `i` and `j` stands the opening of a comment: the slash and star, perhaps a mark, perhaps a
      version, and blanks; `k` is past the mark and `m` past the version. */
  predicate OpeningSpan(s: string, i: nat, k: nat, m: nat, j: nat) {
    && i + 2 <= |s| && s[i] == '/' && s[i + 1] == '*'
    && (|| k == i + 2
        || (k == i + 3 && k <= |s| && s[i + 2] == '!')
        || (k == i + 4 && FoldedAt(s, i + 2, "M!")))
    && Numerals(s, k, m) && m < j && Blanks(s, m, j)
  }

  /** The statement between blanks: SET, perhaps SESSION, and the variable with its equals sign. */
  predicate StatementSpan(s: string, i: nat, c: nat, d: nat, e: nat) {
    && FoldedAt(s, i, "SET") && i + 3 < c && Blanks(s, i + 3, c)
    && (d == c || (FoldedAt(s, c, "SESSION") && c + 7 < d && Blanks(s, c + 7, d)))
    && FoldedAt(s, d, "sql_mode") && Blanks(s, d + 8, e) && e < |s| && s[e] == '='
  }

  lemma {:induction false} SkipSpaceSpans(s: string, i: nat)
    requires i <= |s|
    ensures var j := SkipSpace(s, i); Blanks(s, i, j) && (j == |s| || !Blanks(s, j, j + 1))
    decreases |s| - i
  {
    if i < |s| && s[i] in {' ', '\t', '\n', '\r', '\U{0C}'} {
      SkipSpaceSpans(s, i + 1);
    }
  }

  lemma {:induction false} SkipSpaceIs(s: string, i: nat, j: nat)
    requires Blanks(s, i, j) && (j == |s| || s[j] !in {' ', '\t', '\n', '\r', '\U{0C}'})
    ensures SkipSpace(s, i) == j
    decreases |s| - i
  {
    if i < j {
      SkipSpaceIs(s, i + 1, j);
    }
  }

  lemma {:induction false} SkipDigitsSpans(s: string, i: nat)
    requires i <= |s|
    ensures var j := SkipDigits(s, i); Numerals(s, i, j)
    decreases |s| - i
  {
    if i < |s| && '0' <= s[i] <= '9' {
      SkipDigitsSpans(s, i + 1);
    }
  }

  lemma {:induction false} SkipDigitsIs(s: string, i: nat, j: nat)
    requires Numerals(s, i, j) && (j == |s| || !('0' <= s[j] <= '9'))
    ensures SkipDigits(s, i) == j
    decreases |s| - i
  {
    if i < j {
      SkipDigitsIs(s, i + 1, j);
    }
  }

  lemma FoldedLetter(s: string, i: nat, word: string, k: nat)
    requires FoldedAt(s, i, word) && k < |word|
    ensures FoldChar(s[i + k]) == FoldChar(word[k])
  {
  }

  /** The two words differ in their second letter. */
  lemma VariableIsNotSession(s: string, i: nat)
    ensures !(FoldedAt(s, i, "sql_mode") && FoldedAt(s, i, "SESSION"))
  {
    if FoldedAt(s, i, "sql_mode") {
      FoldedLetter(s, i, "sql_mode", 1);
    }
    if FoldedAt(s, i, "SESSION") {
      FoldedLetter(s, i, "SESSION", 1);
    }
  }

  lemma VariableIsNoBlank(s: string, i: nat)
    requires FoldedAt(s, i, "sql_mode")
    ensures s[i] !in {' ', '\t', '\n', '\r', '\U{0C}'}
  {
    FoldedLetter(s, i, "sql_mode", 0);
  }

  lemma SessionIsNoBlank(s: string, i: nat)
    requires FoldedAt(s, i, "SESSION")
    ensures s[i] !in {' ', '\t', '\n', '\r', '\U{0C}'}
  {
    FoldedLetter(s, i, "SESSION", 0);
  }

  lemma SpacesAre(s: string, i: nat, j: nat)
    requires i < j && Blanks(s, i, j) && j < |s| && s[j] !in {' ', '\t', '\n', '\r', '\U{0C}'}
    ensures Spaces(s, i) == Some(j)
  {
    SkipSpaceIs(s, i, j);
  }

  /** A statement that stands here is found. */
  lemma StatementFound(s: string, i: nat, c: nat, d: nat, e: nat)
    requires StatementSpan(s, i, c, d, e)
    ensures Spaces(s, i + 3) == Some(c) && PastSession(s, c) == Some(d) && SkipSpace(s, d + 8) == e
  {
    SkipSpaceIs(s, d + 8, e);
    VariableIsNotSession(s, d);
    VariableIsNoBlank(s, d);
    if d != c {
      SpacesAre(s, c + 7, d);
      SessionIsNoBlank(s, c);
    }
    SpacesAre(s, i + 3, c);
  }

  lemma OpeningFound(s: string, i: nat, k: nat, m: nat, j: nat)
    requires OpeningSpan(s, i, k, m, j) && j < |s| && s[j] !in {' ', '\t', '\n', '\r', '\U{0C}'}
    ensures Opening(s, i) == Some(j)
  {
    assert Peek(s, i, "/*") by {
      assert s[i..i + 2] == [s[i], s[i + 1]];
    }
    assert s[m] in {' ', '\t', '\n', '\r', '\U{0C}'};
    SkipDigitsIs(s, k, m);
    SkipSpaceIs(s, m, j);
    MarkFound(s, i, k, m, j);
  }

  lemma MarkFound(s: string, i: nat, k: nat, m: nat, j: nat)
    requires OpeningSpan(s, i, k, m, j)
    ensures k == if FoldedAt(s, i + 2, "M!") then i + 4 else if Peek(s, i + 2, "!") then i + 3 else i + 2
  {
    if FoldedAt(s, i + 2, "M!") {
      assert FoldChar(s[i + 2 + 0]) == FoldChar("M!"[0]);
    } else if Peek(s, i + 2, "!") {
      PeekAt(s, i + 2, "!");
      assert s[i + 2 + 0] == '!';
    }
  }

  ghost predicate Opened(s: string, i: nat, j: nat) {
    j == i || exists k: nat, m: nat :: OpeningSpan(s, i, k, m, j)
  }

  /** The regular expression, as spans of the line. */
  ghost predicate ModeStatement(s: string) {
    exists a: nat, b: nat, c: nat, d: nat, e: nat :: Blanks(s, 0, a) && Opened(s, a, b) && StatementSpan(s, b, c, d, e)
  }

  /** A statement starts with a letter, which no opening and no blank does. */
  lemma StartsWithLetter(s: string, i: nat)
    requires FoldedAt(s, i, "SET")
    ensures i < |s| && s[i] !in {' ', '\t', '\n', '\r', '\U{0C}', '/'}
  {
    assert FoldChar(s[i + 0]) == FoldChar("SET"[0]);
  }

  lemma OpenedFound(s: string, a: nat, b: nat)
    requires Blanks(s, 0, a) && Opened(s, a, b) && FoldedAt(s, b, "SET")
    ensures Opening(s, SkipSpace(s, 0)) == Some(b)
  {
    StartsWithLetter(s, b);
    if b == a {
      SkipSpaceIs(s, 0, a);
      if Peek(s, a, "/*") {
        PeekAt(s, a, "/*");
      }
    } else {
      var k: nat, m: nat :| OpeningSpan(s, a, k, m, b);
      SkipSpaceIs(s, 0, a);
      OpeningFound(s, a, k, m, b);
    }
  }

  lemma ModeStatementFound(s: string, a: nat, b: nat, c: nat, d: nat, e: nat)
    requires Blanks(s, 0, a) && Opened(s, a, b) && StatementSpan(s, b, c, d, e)
    ensures SetsSqlMode(s)
  {
    OpenedFound(s, a, b);
    StatementFound(s, b, c, d, e);
    VariableFound(s, d, e);
    SetsFound(s, b, c, d);
  }

  lemma VariableFound(s: string, d: nat, e: nat)
    requires FoldedAt(s, d, "sql_mode") && SkipSpace(s, d + 8) == e && e < |s| && s[e] == '='
    ensures SetsVariable(s, Some(d))
  {
    assert s[e..e + 1] == [s[e]];
  }

  lemma SetsFound(s: string, b: nat, c: nat, d: nat)
    requires Opening(s, SkipSpace(s, 0)) == Some(b) && FoldedAt(s, b, "SET") && Spaces(s, b + 3) == Some(c)
    requires PastSession(s, c) == Some(d) && SetsVariable(s, Some(d))
    ensures SetsSqlMode(s)
  {
  }

  lemma SpacesSpan(s: string, i: nat)
    requires i <= |s| && Spaces(s, i).Some?
    ensures i < Spaces(s, i).value && Blanks(s, i, Spaces(s, i).value)
  {
    SkipSpaceSpans(s, i);
  }

  lemma VariableSpans(s: string, d: nat) returns (e: nat)
    requires SetsVariable(s, Some(d))
    ensures FoldedAt(s, d, "sql_mode") && Blanks(s, d + 8, e) && e < |s| && s[e] == '='
  {
    e := SkipSpace(s, d + 8);
    SkipSpaceSpans(s, d + 8);
    PeekAt(s, e, "=");
    assert s[e + 0] == '=';
  }

  lemma StatementSpans(s: string, i: nat) returns (c: nat, d: nat, e: nat)
    requires FoldedAt(s, i, "SET") && Spaces(s, i + 3).Some? && SetsVariable(s, PastSession(s, Spaces(s, i + 3).value))
    ensures StatementSpan(s, i, c, d, e)
  {
    c := Spaces(s, i + 3).value;
    SpacesSpan(s, i + 3);
    d := PastSession(s, c).value;
    if d != c {
      SpacesSpan(s, c + 7);
    }
    e := VariableSpans(s, d);
  }

  lemma OpeningSpans(s: string, i: nat) returns (k: nat, m: nat, j: nat)
    requires Peek(s, i, "/*") && Opening(s, i).Some?
    ensures Opening(s, i) == Some(j) && OpeningSpan(s, i, k, m, j)
  {
    PeekAt(s, i, "/*");
    assert s[i + 0] == '/' && s[i + 1] == '*';
    j := Opening(s, i).value;
    if Peek(s, i + 2, "!") {
      PeekAt(s, i + 2, "!");
      assert s[i + 2 + 0] == '!';
    }
    k := if FoldedAt(s, i + 2, "M!") then i + 4 else if Peek(s, i + 2, "!") then i + 3 else i + 2;
    m := SkipDigits(s, k);
    SkipDigitsSpans(s, k);
    SkipSpaceSpans(s, m);
  }

  lemma ModeStatementSpans(s: string)
    requires SetsSqlMode(s)
    ensures ModeStatement(s)
  {
    var a := SkipSpace(s, 0);
    SkipSpaceSpans(s, 0);
    var b := Opening(s, a).value;
    var c, d, e := StatementSpans(s, b);
    if b != a {
      var k, m, j := OpeningSpans(s, a);
      assert OpeningSpan(s, a, k, m, b);
    }
    assert Blanks(s, 0, a) && Opened(s, a, b) && StatementSpan(s, b, c, d, e);
  }

  /** The greedy scan finds a statement exactly when the line matches. */
  lemma SetsSqlModeIff(s: string)
    ensures SetsSqlMode(s) <==> ModeStatement(s)
  {
    if ModeStatement(s) {
      var a: nat, b: nat, c: nat, d: nat, e: nat :| Blanks(s, 0, a) && Opened(s, a, b) && StatementSpan(s, b, c, d, e);
      ModeStatementFound(s, a, b, c, d, e);
    }
    if SetsSqlMode(s) {
      ModeStatementSpans(s);
    }
  }

  /** Where the word occurs. */
  function Hits(s: string, word: string): set<int> {
    set k | 0 <= k <= |s| && FoldedAt(s, k, word)
  }

  predicate Inside(s: string, n: nat, hits: set<int>) {
    n > 0 && forall k :: k in hits ==> 0 <= k && k + n <= |s|
  }

  /** From `i` on, the `n` bytes at each hit removed, from the left, without overlap. */
  function Cut(s: string, i: nat, n: nat, hits: set<int>): string
    requires Inside(s, n, hits) && i <= |s|
    decreases |s| - i
  {
    if i == |s| then "" else if i in hits then Cut(s, i + n, n, hits) else [s[i]] + Cut(s, i + 1, n, hits)
  }

  /** Every occurrence removed. */
  function Without(s: string, word: string): string
    requires word != ""
  {
    Cut(s, 0, |word|, Hits(s, word))
  }

  function WithoutMode(s: string): string {
    Without(Without(Without(s, MODE + ","), "," + MODE), MODE)
  }

  /** `cross`: the target is MySQL and the source is not. */
  function Edited(line: string, cross: bool): string {
    if Mentions(line) then "" else if cross && SetsSqlMode(line) then WithoutMode(line) else line
  }

  /** The edits change the line. */
  predicate Touched(line: string, cross: bool) {
    Mentions(line) || (cross && SetsSqlMode(line) && Occurs(line, MODE))
  }

  // ---------------------------------------------------------------------------------------
  // Exactly the touched lines change, and they become shorter

  lemma {:induction false} CutShorter(s: string, i: nat, n: nat, hits: set<int>)
    requires Inside(s, n, hits) && i <= |s|
    ensures |Cut(s, i, n, hits)| <= |s| - i
    ensures (exists k :: i <= k && k in hits) ==> |Cut(s, i, n, hits)| < |s| - i
    ensures (forall k :: k in hits ==> k < i) ==> Cut(s, i, n, hits) == s[i..]
    decreases |s| - i
  {
    if i < |s| {
      if i in hits {
        CutShorter(s, i + n, n, hits);
      } else {
        CutShorter(s, i + 1, n, hits);
        assert s[i..] == [s[i]] + s[i + 1..];
        assert forall k :: i <= k && k in hits ==> i + 1 <= k;
      }
    }
  }

  lemma WithoutShorter(s: string, word: string)
    requires word != ""
    ensures |Without(s, word)| <= |s|
    ensures Occurs(s, word) ==> |Without(s, word)| < |s|
    ensures !Occurs(s, word) ==> Without(s, word) == s
  {
    CutShorter(s, 0, |word|, Hits(s, word));
    if Occurs(s, word) {
      var k :| 0 <= k <= |s| && FoldedAt(s, k, word);
      assert k in Hits(s, word);
    }
  }

  lemma Regroup(s: string, i: nat, j: nat, rest: string)
    requires i < j <= |s|
    ensures [s[i]] + (s[i + 1..j] + rest) == s[i..j] + rest
  {
    assert s[i..j] == [s[i]] + s[i + 1..j];
  }

  /** What is removed: what stands before the first hit stays, the hit goes, and so on after it. */
  lemma {:induction false} CutFirst(s: string, i: nat, j: nat, n: nat, hits: set<int>, rest: string)
    requires Inside(s, n, hits) && i <= j && j in hits && (forall k :: i <= k < j ==> k !in hits) && rest == Cut(s, j + n, n, hits)
    ensures Cut(s, i, n, hits) == s[i..j] + rest
    decreases j - i
  {
    if i < j {
      CutFirst(s, i + 1, j, n, hits, rest);
      Regroup(s, i, j, rest);
    } else {
      assert s[i..j] == "" && "" + rest == rest;
    }
  }

  /** A pattern that contains the mode occurs only where the mode does. */
  lemma OccursInside(s: string, before: string, word: string, after: string)
    requires Occurs(s, before + word + after)
    ensures Occurs(s, word)
  {
    var all := before + word + after;
    var i :| 0 <= i <= |s| && FoldedAt(s, i, all);
    forall k | 0 <= k < |word| ensures FoldChar(s[i + |before| + k]) == FoldChar(word[k]) {
      assert all[|before| + k] == word[k];
      assert FoldChar(s[i + (|before| + k)]) == FoldChar(all[|before| + k]);
    }
    assert FoldedAt(s, i + |before|, word);
  }

  lemma WithoutModeShorter(s: string)
    ensures |WithoutMode(s)| <= |s|
    ensures Occurs(s, MODE) ==> |WithoutMode(s)| < |s|
    ensures !Occurs(s, MODE) ==> WithoutMode(s) == s
  {
    var first := Without(s, MODE + ",");
    var second := Without(first, "," + MODE);
    WithoutShorter(s, MODE + ",");
    WithoutShorter(first, "," + MODE);
    WithoutShorter(second, MODE);
    assert "" + MODE + "," == MODE + "," && "," + MODE + "" == "," + MODE;
    if Occurs(s, MODE + ",") {
      OccursInside(s, "", MODE, ",");
    } else if Occurs(first, "," + MODE) {
      OccursInside(first, ",", MODE, "");
    }
  }

  lemma EditedShorter(line: string, cross: bool)
    ensures |Edited(line, cross)| <= |line|
    ensures Touched(line, cross) ==> |Edited(line, cross)| < |line|
    ensures !Touched(line, cross) ==> Edited(line, cross) == line
  {
    WithoutModeShorter(line);
  }

  // ---------------------------------------------------------------------------------------
  // Lines stay lines

  predicate NoNewline(word: string) {
    forall k :: 0 <= k < |word| ==> FoldChar(word[k]) != '\n'
  }

  lemma {:induction false} CutKeepsLine(s: string, i: nat, n: nat, hits: set<int>)
    requires Inside(s, n, hits) && IsLine(s) && i <= |s| && (Ended(s) ==> forall k :: k in hits ==> k + n < |s|)
    ensures IsLine(Cut(s, i, n, hits)) && (Ended(s) && i < |s| ==> Ended(Cut(s, i, n, hits)))
    ensures i == |s| ==> Cut(s, i, n, hits) == ""
    decreases |s| - i
  {
    if i < |s| {
      if i in hits {
        CutKeepsLine(s, i + n, n, hits);
      } else {
        CutKeepsLine(s, i + 1, n, hits);
      }
    }
  }

  lemma WithoutKeepsLine(s: string, word: string)
    requires word != "" && NoNewline(word) && IsLine(s)
    ensures IsLine(Without(s, word)) && (Ended(s) ==> Ended(Without(s, word)))
  {
    if Ended(s) {
      forall k | k in Hits(s, word) ensures k + |word| < |s| {
        FoldedLetter(s, k, word, |word| - 1);
      }
    }
    CutKeepsLine(s, 0, |word|, Hits(s, word));
    assert s == "" ==> !Ended(s);
  }

  lemma ModeHasNoNewline()
    ensures NoNewline(MODE) && NoNewline(MODE + ",") && NoNewline("," + MODE)
  {
  }

  /** An edited line is a line, and ends in its newline unless nothing is left of it. */
  lemma EditedKeepsLine(line: string, cross: bool)
    requires IsLine(line)
    ensures IsLine(Edited(line, cross))
    ensures Ended(line) && Edited(line, cross) != "" ==> Ended(Edited(line, cross))
  {
    ModeHasNoNewline();
    WithoutKeepsLine(line, MODE + ",");
    WithoutKeepsLine(Without(line, MODE + ","), "," + MODE);
    WithoutKeepsLine(Without(Without(line, MODE + ","), "," + MODE), MODE);
  }

  lemma PhraseIsLower()
    ensures Lower(PHRASE) == PHRASE
  {
  }

  /** Whatever stands before and after the phrase, and however it is written, the line is dropped. */
  lemma PhraseDropsLine(before: string, phrase: string, after: string, cross: bool)
    requires Lower(phrase) == PHRASE
    ensures Edited(before + phrase + after, cross) == ""
  {
    var line := before + phrase + after;
    assert Lower(line)[|before|..|before| + |PHRASE|] == Lower(phrase);
    assert Peek(Lower(line), |before|, PHRASE);
  }
}
