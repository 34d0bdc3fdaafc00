/** What the dump transformer must take for SQL code and what it must copy untouched: one
    left-to-right automaton over the text, a byte per step, and the rendering it determines. */
module MysqlLexer {
  import opened Wrappers

  datatype Kind = Code | Verbatim

  datatype Quote = Single | Double

  function Mark(q: Quote): char {
    if q == Single then '\'' else '"'
  }

  datatype Context = InCode | InString(quote: Quote) | InBlock | BlockEnd | InLine

  /** `exec` is set inside an executable comment; the next `skip` bytes are taken without a look. */
  datatype Lex = Lex(context: Context, exec: bool, skip: nat)

  const START := Lex(InCode, false, 0)

  predicate Peek(text: string, i: nat, word: string) {
    i + |word| <= |text| && text[i..i + |word|] == word
  }

  lemma PeekAt(text: string, i: nat, word: string)
    requires Peek(text, i, word)
    ensures forall k :: 0 <= k < |word| ==> text[i + k] == word[k]
  {
    forall k | 0 <= k < |word| ensures text[i + k] == word[k] {
      assert text[i..i + |word|][k] == text[i + k];
    }
  }

  predicate BlankAt(text: string, i: nat) {
    i < |text| && (text[i] == ' ' || text[i] == '\t' || text[i] == '\r' || text[i] == '\n')
  }

  predicate LineCommentAt(text: string, i: nat)
    requires i < |text|
  {
    text[i] == '#' || (Peek(text, i, "--") && BlankAt(text, i + 2))
  }

  predicate ExecutableAt(text: string, i: nat) {
    Peek(text, i, "/*!") || Peek(text, i, "/*M!")
  }

  function StepCode(text: string, i: nat, s: Lex): (Kind, Lex)
    requires i < |text|
  {
    var c := text[i];
    if s.exec && Peek(text, i, "*/") then (Code, Lex(InCode, false, 1))
    else if c == Mark(Single) then (Verbatim, s.(context := InString(Single)))
    else if c == Mark(Double) then (Verbatim, s.(context := InString(Double)))
    else if !s.exec && Peek(text, i, "/*") then
      if ExecutableAt(text, i) then (Code, Lex(InCode, true, 2)) else (Verbatim, s.(context := InBlock))
    else if !s.exec && LineCommentAt(text, i) then (Verbatim, s.(context := InLine))
    else (Code, s)
  }

  function StepString(text: string, i: nat, s: Lex, quote: Quote): (Kind, Lex)
    requires i < |text|
  {
    var c := text[i];
    if c == '\\' && i + 1 < |text| then (Verbatim, s.(skip := 1))
    else if c == Mark(quote) then
      if i + 1 < |text| && text[i + 1] == Mark(quote) then (Verbatim, s.(skip := 1)) else (Verbatim, s.(context := InCode))
    else (Verbatim, s)
  }

  function Step(text: string, i: nat, s: Lex): (Kind, Lex)
    requires i < |text|
  {
    if s.skip > 0 then (if s.context.InCode? then Code else Verbatim, s.(skip := s.skip - 1))
    else
      match s.context
      case InCode => StepCode(text, i, s)
      case InString(quote) => StepString(text, i, s, quote)
      case InBlock => (Verbatim, if Peek(text, i, "*/") then s.(context := BlockEnd) else s)
      case BlockEnd => (Verbatim, s.(context := InCode))
      case InLine => (Verbatim, if text[i] == '\n' then s.(context := InCode) else s)
  }

  /** The automaton before byte `i`. */
  function LexAt(text: string, s: Lex, i: nat): Lex
    requires i <= |text|
  {
    if i == 0 then s else Step(text, i - 1, LexAt(text, s, i - 1)).1
  }

  function KindAt(text: string, s: Lex, i: nat): Kind
    requires i < |text|
  {
    Step(text, i, LexAt(text, s, i)).0
  }

  // ---------------------------------------------------------------------------------------
  // Rendering: code runs are rewritten whole, every other byte is copied

  function RunEnd(text: string, s: Lex, i: nat): (e: nat)
    requires i <= |text|
    ensures i <= e <= |text|
    ensures forall k :: i <= k < e ==> KindAt(text, s, k) == Code
    ensures e < |text| ==> KindAt(text, s, e) == Verbatim
    decreases |text| - i
  {
    if i < |text| && KindAt(text, s, i) == Code then RunEnd(text, s, i + 1) else i
  }

  function Cat(a: Option<string>, b: Option<string>): Option<string> {
    if a.None? || b.None? then None else Some(a.value + b.value)
  }

  /** `rewrite` is the treatment of a run of code; it may fail. */
  function Render(text: string, s: Lex, rewrite: string -> Option<string>, i: nat): Option<string>
    requires i <= |text|
    decreases |text| - i
  {
    if i == |text| then Some("")
    else if KindAt(text, s, i) == Verbatim then Cat(Some([text[i]]), Render(text, s, rewrite, i + 1))
    else
      var e := RunEnd(text, s, i + 1);
      Cat(rewrite(text[i..e]), Render(text, s, rewrite, e))
  }

  /** A span of verbatim bytes is copied. */
  lemma {:induction false} VerbatimSpan(text: string, s: Lex, rewrite: string -> Option<string>, i: nat, j: nat)
    requires i <= j <= |text| && forall k :: i <= k < j ==> KindAt(text, s, k) == Verbatim
    ensures Render(text, s, rewrite, i) == Cat(Some(text[i..j]), Render(text, s, rewrite, j))
    decreases j - i
  {
    if i < j {
      VerbatimSpan(text, s, rewrite, i + 1, j);
      assert text[i..j] == [text[i]] + text[i + 1..j];
      CatAssociative(Some([text[i]]), Some(text[i + 1..j]), Render(text, s, rewrite, j));
    } else {
      var r := Render(text, s, rewrite, j);
      assert text[i..j] == "" && (r.Some? ==> "" + r.value == r.value);
    }
  }

  lemma CatAssociative(a: Option<string>, b: Option<string>, c: Option<string>)
    ensures Cat(Cat(a, b), c) == Cat(a, Cat(b, c))
  {
    if a.Some? && b.Some? && c.Some? {
      assert a.value + b.value + c.value == a.value + (b.value + c.value);
    }
  }

  /** A maximal run of code is rewritten as a whole. */
  lemma CodeSpan(text: string, s: Lex, rewrite: string -> Option<string>, i: nat, j: nat)
    requires i < j <= |text| && (forall k :: i <= k < j ==> KindAt(text, s, k) == Code)
    requires j == |text| || KindAt(text, s, j) == Verbatim
    ensures Render(text, s, rewrite, i) == Cat(rewrite(text[i..j]), Render(text, s, rewrite, j))
  {
    RunEndsAt(text, s, i + 1, j);
  }

  lemma {:induction false} RunEndsAt(text: string, s: Lex, i: nat, j: nat)
    requires i <= j <= |text| && (forall k :: i <= k < j ==> KindAt(text, s, k) == Code)
    requires j == |text| || KindAt(text, s, j) == Verbatim
    ensures RunEnd(text, s, i) == j
    decreases j - i
  {
    if i < j {
      RunEndsAt(text, s, i + 1, j);
    }
  }

  /** No byte is lost or repeated: when code is left as it is, so is the text. */
  lemma {:induction false} IdentityRendersText(text: string, s: Lex, rewrite: string -> Option<string>, i: nat)
    requires i <= |text| && forall code :: rewrite(code) == Some(code)
    ensures Render(text, s, rewrite, i) == Some(text[i..])
    decreases |text| - i
  {
    if i < |text| {
      if KindAt(text, s, i) == Verbatim {
        IdentityRendersText(text, s, rewrite, i + 1);
        assert text[i..] == [text[i]] + text[i + 1..];
      } else {
        var e := RunEnd(text, s, i + 1);
        IdentityRendersText(text, s, rewrite, e);
        assert text[i..] == text[i..e] + text[e..];
      }
    }
  }

  // ---------------------------------------------------------------------------------------
  // Lines

  /** A line as it is read: a newline, if any, is its last byte. */
  predicate IsLine(line: string) {
    forall i :: 0 <= i < |line| && line[i] == '\n' ==> i == |line| - 1
  }

  predicate Ended(line: string) {
    line != "" && line[|line| - 1] == '\n'
  }

  /** Inside a line, looking ahead in the line is looking ahead in the text. */
  lemma StepIsLocal(before: string, line: string, after: string, i: nat, s: Lex)
    requires IsLine(line) && i < |line| && (after == "" || Ended(line))
    ensures Step(before + line + after, |before| + i, s) == Step(line, i, s)
  {
    var text, p := before + line + after, |before| + i;
    assert text[p] == line[i];
    if s.skip == 0 {
      match s.context
      case InCode => StepCodeIsLocal(before, line, after, i, s);
      case InString(quote) =>
        assert i + 1 < |line| ==> text[p + 1] == line[i + 1];
        assert i + 1 == |line| && after != "" ==> line[i] == '\n';
      case InBlock => PeekIsLocal(before, line, after, i, "*/");
      case BlockEnd =>
      case InLine =>
    }
  }

  lemma StepCodeIsLocal(before: string, line: string, after: string, i: nat, s: Lex)
    requires IsLine(line) && i < |line| && (after == "" || Ended(line))
    ensures StepCode(before + line + after, |before| + i, s) == StepCode(line, i, s)
  {
    var text, p := before + line + after, |before| + i;
    PeekIsLocal(before, line, after, i, "*/");
    PeekIsLocal(before, line, after, i, "/*");
    PeekIsLocal(before, line, after, i, "--");
    PeekIsLocal(before, line, after, i, "/*!");
    PeekIsLocal(before, line, after, i, "/*M!");
    assert text[p] == line[i];
    if Peek(line, i, "--") {
      PeekAt(line, i, "--");
      assert BlankAt(text, p + 2) == BlankAt(line, i + 2);
    }
  }

  lemma PeekIsLocal(before: string, line: string, after: string, i: nat, word: string)
    requires IsLine(line) && i < |line| && (after == "" || Ended(line))
    requires |word| > 0 && forall k :: 0 <= k < |word| ==> word[k] != '\n'
    ensures Peek(before + line + after, |before| + i, word) <==> Peek(line, i, word)
  {
    var text, p := before + line + after, |before| + i;
    if i + |word| <= |line| {
      assert text[p..p + |word|] == line[i..i + |word|];
    } else if p + |word| <= |text| {
      var k := |line| - 1 - i;
      assert text[p..p + |word|][k] == line[|line| - 1] == '\n';
      assert text[p..p + |word|] != word;
    }
  }

  /** Run over the line with the state carried from the text before it, the automaton is where it
      is when it runs over the whole text. */
  lemma {:induction false} LexIsCarried(before: string, line: string, after: string, s: Lex, i: nat)
    requires IsLine(line) && i <= |line| && (after == "" || Ended(line))
    ensures LexAt(before + line + after, s, |before| + i) == LexAt(line, LexAt(before + line + after, s, |before|), i)
  {
    if i > 0 {
      LexIsCarried(before, line, after, s, i - 1);
      StepIsLocal(before, line, after, i - 1, LexAt(before + line + after, s, |before| + i - 1));
    }
  }

  lemma KindIsCarried(before: string, line: string, after: string, s: Lex, i: nat)
    requires IsLine(line) && i < |line| && (after == "" || Ended(line))
    ensures KindAt(before + line + after, s, |before| + i) == KindAt(line, LexAt(before + line + after, s, |before|), i)
  {
    LexIsCarried(before, line, after, s, i);
    StepIsLocal(before, line, after, i, LexAt(before + line + after, s, |before| + i));
  }
}
