/** The dump transformer as it runs: line by line, jumping over strings and comments, with a state
    carried from line to line; proved to render the text as the byte automaton classifies it. */
module MysqlDump {
  import opened Wrappers
  import opened MysqlLexer
  import opened MysqlEdits

  const MAXIMUM_LINE := 64 * 1024 * 1024

  datatype TransformState = TransformState(quote: Option<Quote>, block: bool, exec: bool)

  const FRESH := TransformState(None, false, false)

  function ToLex(st: TransformState): Lex {
    Lex(if st.block then InBlock else if st.quote.Some? then InString(st.quote.value) else InCode, st.exec, 0)
  }

  /** The automaton at the end of a line, seen as the carried state: a line comment ends there. */
  predicate Carries(l: Lex, st: TransformState) {
    l == ToLex(st) || (l == Lex(InLine, false, 0) && st == FRESH)
  }

  predicate AllKind(line: string, s: Lex, i: nat, j: nat, kind: Kind)
    requires i <= j <= |line|
  {
    forall k :: i <= k < j ==> KindAt(line, s, k) == kind
  }

  /** Inside a block comment, or on the slash that opens one. */
  predicate BlockAt(line: string, s: Lex, i: nat, exec: bool)
    requires i < |line|
  {
    || LexAt(line, s, i) == Lex(InBlock, exec, 0)
    || (line[i] == '/' && KindAt(line, s, i) == Verbatim && LexAt(line, s, i + 1) == Lex(InBlock, exec, 0))
  }

  /** Finds the end of the comment.  The search starts on the opening slash, so slash, star, slash is
      a complete comment. */
  method CopyBlock(line: string, start: nat, ghost s: Lex, ghost exec: bool) returns (end: nat, closed: bool)
    requires start < |line| && BlockAt(line, s, start, exec)
    ensures start < end <= |line| && AllKind(line, s, start, end, Verbatim)
    ensures LexAt(line, s, end) == if closed then Lex(InCode, exec, 0) else Lex(InBlock, exec, 0)
    ensures !closed ==> end == |line|
  {
    end := start;
    while end < |line|
      invariant start <= end <= |line| && AllKind(line, s, start, end, Verbatim)
      invariant end > start ==> LexAt(line, s, end) == Lex(InBlock, exec, 0)
    {
      if Peek(line, end, "*/") {
        PeekAt(line, end, "*/");
        assert LexAt(line, s, end + 1) == Lex(BlockEnd, exec, 0);
        assert LexAt(line, s, end + 2) == Lex(InCode, exec, 0);
        return end + 2, true;
      }
      assert KindAt(line, s, end) == Verbatim && LexAt(line, s, end + 1) == Lex(InBlock, exec, 0);
      end := end + 1;
    }
    closed := false;
  }

  /** Finds the end of the string: backslash pairs and doubled quotes stay inside. */
  method CopyString(line: string, start: nat, quote: Quote, ghost s: Lex, ghost exec: bool) returns (end: nat, closed: bool)
    requires start < |line| && LexAt(line, s, start) == Lex(InString(quote), exec, 0)
    ensures start < end <= |line| && AllKind(line, s, start, end, Verbatim)
    ensures LexAt(line, s, end) == if closed then Lex(InCode, exec, 0) else Lex(InString(quote), exec, 0)
    ensures !closed ==> end == |line|
  {
    end := start;
    while end < |line|
      invariant start <= end <= |line| && AllKind(line, s, start, end, Verbatim)
      invariant LexAt(line, s, end) == Lex(InString(quote), exec, 0)
    {
      if (line[end] == '\\' && end + 1 < |line|)
         || (line[end] == Mark(quote) && end + 1 < |line| && line[end + 1] == Mark(quote)) {
        assert LexAt(line, s, end + 1) == Lex(InString(quote), exec, 1);
        assert LexAt(line, s, end + 2) == Lex(InString(quote), exec, 0);
        end := end + 2;
      } else if line[end] == Mark(quote) {
        assert LexAt(line, s, end + 1) == Lex(InCode, exec, 0);
        return end + 1, true;
      } else {
        assert LexAt(line, s, end + 1) == Lex(InString(quote), exec, 0);
        end := end + 1;
      }
    }
    closed := false;
  }

  /** Why a run of code ends. */
  datatype Stop = AtEnd | AtQuote(quote: Quote) | AtBlock | AtLineComment

  predicate StopsFor(line: string, s: Lex, end: nat, exec: bool, stop: Stop)
    requires end <= |line|
  {
    match stop
    case AtEnd => end == |line|
    case AtQuote(quote) => end < |line| && KindAt(line, s, end) == Verbatim && LexAt(line, s, end + 1) == Lex(InString(quote), exec, 0)
    case AtBlock => end < |line| && KindAt(line, s, end) == Verbatim && BlockAt(line, s, end, exec)
    case AtLineComment => end < |line| && !exec && KindAt(line, s, end) == Verbatim && LexAt(line, s, end + 1) == Lex(InLine, false, 0)
  }

  method ScanCode(line: string, start: nat, exec: bool, ghost s: Lex) returns (end: nat, exec': bool, stop: Stop)
    requires start < |line| && LexAt(line, s, start) == Lex(InCode, exec, 0)
    ensures start <= end <= |line| && AllKind(line, s, start, end, Code)
    ensures LexAt(line, s, end) == Lex(InCode, exec', 0) && StopsFor(line, s, end, exec', stop)
  {
    end, exec' := start, exec;
    while end < |line|
      invariant start <= end <= |line| && AllKind(line, s, start, end, Code)
      invariant LexAt(line, s, end) == Lex(InCode, exec', 0)
      decreases |line| - end
    {
      if exec' && Peek(line, end, "*/") {
        assert LexAt(line, s, end + 1) == Lex(InCode, false, 1);
        assert LexAt(line, s, end + 2) == Lex(InCode, false, 0);
        end, exec' := end + 2, false;
      } else if line[end] == '\'' {
        return end, exec', AtQuote(Single);
      } else if line[end] == '"' {
        return end, exec', AtQuote(Double);
      } else if !exec' && Peek(line, end, "/*") {
        if ExecutableAt(line, end) {
          assert LexAt(line, s, end + 1) == Lex(InCode, true, 2);
          assert LexAt(line, s, end + 2) == Lex(InCode, true, 1);
          assert LexAt(line, s, end + 3) == Lex(InCode, true, 0);
          end, exec' := end + 3, true;
        } else {
          PeekAt(line, end, "/*");
          return end, exec', AtBlock;
        }
      } else if !exec' && LineCommentAt(line, end) {
        return end, exec', AtLineComment;
      } else {
        assert LexAt(line, s, end + 1) == Lex(InCode, exec', 0);
        end := end + 1;
      }
    }
    stop := AtEnd;
  }

  /** After the opening of a line comment everything to the end of the line is verbatim. */
  lemma {:induction false} LineCommentRuns(line: string, s: Lex, i: nat)
    requires IsLine(line) && i <= |line|
    requires LexAt(line, s, i) == Lex(InLine, false, 0) || (i == |line| && LexAt(line, s, i) == Lex(InCode, false, 0))
    ensures AllKind(line, s, i, |line|, Verbatim)
    ensures Carries(LexAt(line, s, |line|), FRESH)
    decreases |line| - i
  {
    if i < |line| {
      assert KindAt(line, s, i) == Verbatim;
      LineCommentRuns(line, s, i + 1);
    }
  }

  predicate Carried(line: string, s: Lex, i: nat, st: TransformState)
    requires i <= |line|
  {
    if st.block && i < |line| then BlockAt(line, s, i, st.exec) else LexAt(line, s, i) == ToLex(st)
  }

  /** Output so far, followed by the rendering of what is left, is the rendering of the line. */
  predicate Written(line: string, s: Lex, rewrite: string -> Option<string>, i: nat, output: string)
    requires i <= |line|
  {
    Cat(Some(output), Render(line, s, rewrite, i)) == Render(line, s, rewrite, 0)
  }

  lemma CopyWritten(line: string, s: Lex, rewrite: string -> Option<string>, i: nat, j: nat, output: string)
    requires i <= j <= |line| && AllKind(line, s, i, j, Verbatim) && Written(line, s, rewrite, i, output)
    ensures Written(line, s, rewrite, j, output + line[i..j])
  {
    VerbatimSpan(line, s, rewrite, i, j);
    CatAssociative(Some(output), Some(line[i..j]), Render(line, s, rewrite, j));
  }

  lemma CodeWritten(line: string, s: Lex, rewrite: string -> Option<string>, i: nat, j: nat, output: string)
    requires i < j <= |line| && AllKind(line, s, i, j, Code) && (j == |line| || KindAt(line, s, j) == Verbatim)
    requires Written(line, s, rewrite, i, output)
    ensures rewrite(line[i..j]).None? ==> Render(line, s, rewrite, 0).None?
    ensures rewrite(line[i..j]).Some? ==> Written(line, s, rewrite, j, output + rewrite(line[i..j]).value)
  {
    CodeSpan(line, s, rewrite, i, j);
    CatAssociative(Some(output), rewrite(line[i..j]), Render(line, s, rewrite, j));
  }

  /** One run of code with what ends it. */
  method CodePart(line: string, start: nat, st: TransformState, rewrite: string -> Option<string>, output: string, ghost s: Lex)
    returns (out: Option<string>, end: nat, st': TransformState)
    requires IsLine(line) && start < |line| && !st.block && st.quote.None? && Carried(line, s, start, st)
    requires Written(line, s, rewrite, start, output)
    ensures out.None? ==> Render(line, s, rewrite, 0).None?
    ensures out.Some? ==> start <= end <= |line| && Written(line, s, rewrite, end, out.value)
    ensures out.Some? && end < |line| ==> Carried(line, s, end, st') && (end > start || st'.block)
    ensures out.Some? && end == |line| ==> Carries(LexAt(line, s, end), st')
  {
    var stop, exec;
    end, exec, stop := ScanCode(line, start, st.exec, s);
    st' := TransformState(None, false, exec);
    out := Some(output);
    if start < end {
      CodeWritten(line, s, rewrite, start, end, output);
      var code := rewrite(line[start..end]);
      if code.None? {
        return None, end, st';
      }
      out := Some(output + code.value);
    }
    var copied;
    copied, end, st' := EndCode(line, end, exec, stop, rewrite, out.value, s);
    out := Some(copied);
  }

  /** What ends a run of code: a quote is copied, a line comment too, to the end of the line. */
  method EndCode(line: string, at: nat, exec: bool, stop: Stop, rewrite: string -> Option<string>, output: string, ghost s: Lex)
    returns (out: string, end: nat, st': TransformState)
    requires IsLine(line) && at <= |line| && LexAt(line, s, at) == Lex(InCode, exec, 0) && StopsFor(line, s, at, exec, stop)
    requires Written(line, s, rewrite, at, output)
    ensures at <= end <= |line| && Written(line, s, rewrite, end, out)
    ensures end < |line| ==> Carried(line, s, end, st') && (end > at || st'.block)
    ensures end == |line| ==> Carries(LexAt(line, s, end), st')
  {
    st' := TransformState(None, false, exec);
    out, end := output, at;
    match stop
    case AtEnd =>
    case AtQuote(quote) =>
      CopyWritten(line, s, rewrite, at, at + 1, output);
      out, end := output + line[at..at + 1], at + 1;
      st' := st'.(quote := Some(quote));
    case AtBlock =>
      st' := st'.(block := true);
    case AtLineComment =>
      LineCommentRuns(line, s, at + 1);
      assert AllKind(line, s, at, |line|, Verbatim);
      CopyWritten(line, s, rewrite, at, |line|, output);
      assert line[at..] == line[at..|line|];
      out, end := output + line[at..], |line|;
  }

  method TransformLine(line: string, st: TransformState, rewrite: string -> Option<string>)
    returns (out: Option<string>, st': TransformState)
    requires IsLine(line)
    ensures out == Render(line, ToLex(st), rewrite, 0)
    ensures out.Some? ==> Carries(LexAt(line, ToLex(st), |line|), st')
  {
    ghost var s := ToLex(st);
    var output := "";
    var index := 0;
    st' := st;
    assert Written(line, s, rewrite, 0, output) by {
      var r := Render(line, s, rewrite, 0);
      assert r.Some? ==> "" + r.value == r.value;
    }
    while index < |line|
      invariant 0 <= index <= |line| && Written(line, s, rewrite, index, output)
      invariant index < |line| ==> Carried(line, s, index, st')
      invariant index == |line| ==> Carries(LexAt(line, s, index), st')
      decreases |line| - index, !st'.block
    {
      if st'.block {
        var end, closed := CopyBlock(line, index, s, st'.exec);
        CopyWritten(line, s, rewrite, index, end, output);
        output, index, st' := output + line[index..end], end, TransformState(None, !closed, st'.exec);
      } else if st'.quote.Some? {
        var end, closed := CopyString(line, index, st'.quote.value, s, st'.exec);
        CopyWritten(line, s, rewrite, index, end, output);
        output, index := output + line[index..end], end;
        if closed {
          st' := st'.(quote := None);
        }
      } else {
        var part, end, next := CodePart(line, index, st', rewrite, output, s);
        if part.None? {
          return None, next;
        }
        output, index, st' := part.value, end, next;
      }
    }
    out := Some(output);
    assert Render(line, s, rewrite, |line|) == Some("") && output + "" == output;
  }

  // ---------------------------------------------------------------------------------------
  // The whole dump

  function Flat(lines: seq<string>): string {
    if lines == [] then "" else Flat(lines[..|lines| - 1]) + lines[|lines| - 1]
  }

  /** The lines that reach the lexer: edited, and dropped when the edit leaves nothing. */
  function Kept(lines: seq<string>, cross: bool): seq<string> {
    if lines == [] then []
    else
      var line := Edited(lines[|lines| - 1], cross);
      Kept(lines[..|lines| - 1], cross) + (if line == "" then [] else [line])
  }

  /** Whole lines: all but the last end in their only newline. */
  predicate WholeLines(lines: seq<string>) {
    && (forall i :: 0 <= i < |lines| ==> IsLine(lines[i]))
    && (forall i :: 0 <= i < |lines| - 1 ==> Ended(lines[i]))
  }

  /** The rendering of a text, line by line: code runs end with their line. */
  function RenderLines(lines: seq<string>, rewrite: string -> Option<string>): Option<string> {
    if lines == [] then Some("")
    else
      var rest := lines[..|lines| - 1];
      Cat(RenderLines(rest, rewrite), Render(lines[|lines| - 1], LexAt(Flat(rest), START, |Flat(rest)|), rewrite, 0))
  }

  /** The automaton over a text that grows by whole lines only grows. */
  lemma {:induction false} LexPrefix(text: string, more: string, s: Lex, i: nat)
    requires i <= |text| && (text == "" || Ended(text))
    ensures LexAt(text + more, s, i) == LexAt(text, s, i)
  {
    if i > 0 {
      LexPrefix(text, more, s, i - 1);
      var l := LexAt(text, s, i - 1);
      StepPrefix(text, more, i - 1, l);
      LexStep(text, s, i, l);
      LexStep(text + more, s, i, l);
    }
  }

  lemma LexStep(text: string, s: Lex, i: nat, l: Lex)
    requires 0 < i <= |text| && LexAt(text, s, i - 1) == l
    ensures LexAt(text, s, i) == Step(text, i - 1, l).1
  {
  }

  /** Looking ahead never passes a final newline. */
  lemma StepPrefix(text: string, more: string, i: nat, s: Lex)
    requires Ended(text) && i < |text|
    ensures Step(text + more, i, s) == Step(text, i, s)
  {
    PeekPrefix(text, more, i, "*/");
    PeekPrefix(text, more, i, "/*");
    PeekPrefix(text, more, i, "--");
    PeekPrefix(text, more, i, "/*!");
    PeekPrefix(text, more, i, "/*M!");
    if Peek(text, i, "--") {
      PeekAt(text, i, "--");
      assert BlankAt(text + more, i + 2) == BlankAt(text, i + 2);
    }
    assert i + 1 == |text| ==> text[i] == '\n';
  }

  lemma PeekPrefix(text: string, more: string, i: nat, word: string)
    requires Ended(text) && i < |text| && |word| > 0 && forall k :: 0 <= k < |word| ==> word[k] != '\n'
    ensures Peek(text + more, i, word) <==> Peek(text, i, word)
  {
    var all := text + more;
    if i + |word| <= |text| {
      assert all[i..i + |word|] == text[i..i + |word|];
    } else if i + |word| <= |all| {
      assert all[i..i + |word|][|text| - 1 - i] == '\n';
    }
  }

  lemma {:induction false} FlatEnds(lines: seq<string>)
    requires forall i :: 0 <= i < |lines| ==> Ended(lines[i])
    ensures Flat(lines) == "" || Ended(Flat(lines))
  {
    if lines != [] {
      var n := |lines| - 1;
      assert Flat(lines)[|Flat(lines)| - 1] == lines[n][|lines[n]| - 1];
    }
  }

  /** The classification used for a line is that of the automaton run once over the whole text. */
  lemma {:induction false} LinesAgreeWithText(lines: seq<string>, n: nat, i: nat)
    requires WholeLines(lines) && n < |lines| && i < |lines[n]|
    ensures |Flat(lines[..n])| + i < |Flat(lines)|
    ensures Flat(lines)[|Flat(lines[..n])| + i] == lines[n][i]
    ensures KindAt(lines[n], LexAt(Flat(lines[..n]), START, |Flat(lines[..n])|), i)
         == KindAt(Flat(lines), START, |Flat(lines[..n])| + i)
  {
    var before, line := Flat(lines[..n]), lines[n];
    var after := Rest(lines, n + 1);
    FlatSplits(lines, n + 1);
    assert lines[..n + 1][..n] == lines[..n];
    assert Flat(lines) == before + line + after;
    FlatEnds(lines[..n]);
    assert before + (line + after) == before + line + after;
    LexPrefix(before, line + after, START, |before|);
    if n + 1 == |lines| {
      assert after == "";
    }
    KindIsCarried(before, line, after, START, i);
  }

  function Rest(lines: seq<string>, n: nat): string
    requires n <= |lines|
    decreases |lines|
  {
    if n == |lines| then "" else Rest(lines[..|lines| - 1], n) + lines[|lines| - 1]
  }

  lemma {:induction false} FlatSplits(lines: seq<string>, n: nat)
    requires n <= |lines|
    ensures Flat(lines) == Flat(lines[..n]) + Rest(lines, n)
  {
    if n == |lines| {
      assert lines[..n] == lines;
    } else {
      var m := |lines| - 1;
      FlatSplits(lines[..m], n);
      assert lines[..m][..n] == lines[..n];
      assert Flat(lines[..n]) + Rest(lines[..m], n) + lines[m] == Flat(lines[..n]) + (Rest(lines[..m], n) + lines[m]);
    }
  }

  /** The state carried past a line is the automaton over the text so far. */
  lemma CarriedOn(done: seq<string>, line: string, st: TransformState, st': TransformState)
    requires WholeLines(done + [line]) && Carries(LexAt(Flat(done), START, |Flat(done)|), st)
    ensures LexAt(Flat(done), START, |Flat(done)|) == ToLex(st)
    ensures Carries(LexAt(line, ToLex(st), |line|), st') ==> Carries(LexAt(Flat(done + [line]), START, |Flat(done + [line])|), st')
  {
    var before, all := Flat(done), done + [line];
    assert all[..|done|] == done && all[|done|] == line;
    assert forall i :: 0 <= i < |done| ==> all[i] == done[i];
    FlatEnds(done);
    if before != "" {
      NoLineCommentLeft(before, START, |before|);
    }
    LexPrefix(before, line, START, |before|);
    assert before + line + "" == before + line;
    LexIsCarried(before, line, "", START, |line|);
  }

  predicate Sane(l: Lex) {
    l.context.InLine? ==> l.skip == 0
  }

  lemma {:induction false} StaysSane(line: string, s: Lex, i: nat)
    requires Sane(s) && i <= |line|
    ensures Sane(LexAt(line, s, i))
  {
    if i > 0 {
      StaysSane(line, s, i - 1);
    }
  }

  lemma NoLineCommentLeft(line: string, s: Lex, n: nat)
    requires Ended(line) && n == |line| && Sane(s)
    ensures !LexAt(line, s, n).context.InLine?
  {
    StaysSane(line, s, n - 1);
    assert line[n - 1] == '\n';
    assert !Peek(line, n - 1, "--");
  }


  predicate Rendered(lines: seq<string>, rewrite: string -> Option<string>, output: string, st: TransformState) {
    RenderLines(lines, rewrite) == Some(output) && Carries(LexAt(Flat(lines), START, |Flat(lines)|), st)
  }

  /** The text does not end inside a string or a comment. */
  predicate EndsOutside(lines: seq<string>) {
    Carries(LexAt(Flat(lines), START, |Flat(lines)|), FRESH)
  }

  lemma {:induction false} KeptWhole(raw: seq<string>, cross: bool)
    requires WholeLines(raw)
    ensures WholeLines(Kept(raw, cross))
    ensures (forall i :: 0 <= i < |raw| ==> Ended(raw[i])) ==> forall i :: 0 <= i < |Kept(raw, cross)| ==> Ended(Kept(raw, cross)[i])
  {
    if raw != [] {
      KeptWhole(raw[..|raw| - 1], cross);
      EditedKeepsLine(raw[|raw| - 1], cross);
    }
  }

  lemma {:induction false} KeptPrefix(raw: seq<string>, cross: bool, n: nat)
    requires n <= |raw|
    ensures Kept(raw[..n], cross) <= Kept(raw, cross)
  {
    if n == |raw| {
      assert raw[..n] == raw;
    } else {
      var m := |raw| - 1;
      KeptPrefix(raw[..m], cross, n);
      assert raw[..m][..n] == raw[..n];
    }
  }

  lemma {:induction false} FailureSpreads(lines: seq<string>, n: nat, rewrite: string -> Option<string>)
    requires n <= |lines| && RenderLines(lines[..n], rewrite).None?
    ensures RenderLines(lines, rewrite).None?
  {
    if n == |lines| {
      assert lines[..n] == lines;
    } else {
      var m := |lines| - 1;
      assert lines[..m][..n] == lines[..n];
      FailureSpreads(lines[..m], n, rewrite);
    }
  }

  lemma WholePrefix(all: seq<string>, done: seq<string>, line: string)
    requires WholeLines(all) && done + [line] <= all
    ensures done + [line] == all[..|done| + 1] && WholeLines(done + [line])
  {
    assert forall i :: 0 <= i <= |done| ==> (done + [line])[i] == all[i];
  }

  /** One line of the loop. */
  method TransformNext(ghost done: seq<string>, line: string, st: TransformState, output: string, rewrite: string -> Option<string>)
    returns (out: Option<string>, st': TransformState)
    requires WholeLines(done + [line]) && Rendered(done, rewrite, output, st)
    ensures out.None? ==> RenderLines(done + [line], rewrite).None?
    ensures out.Some? ==> Rendered(done + [line], rewrite, out.value, st')
  {
    assert (done + [line])[..|done|] == done && (done + [line])[|done|] == line;
    out, st' := TransformLine(line, st, rewrite);
    CarriedOn(done, line, st, st');
    if out.Some? {
      out := Some(output + out.value);
    }
  }

  /** One line that reaches the lexer, among all of them. */
  method TransformAmong(ghost all: seq<string>, ghost done: seq<string>, line: string, st: TransformState, output: string,
                        rewrite: string -> Option<string>)
    returns (out: Option<string>, st': TransformState)
    requires WholeLines(all) && done + [line] <= all && Rendered(done, rewrite, output, st)
    ensures out.None? ==> RenderLines(all, rewrite).None?
    ensures out.Some? ==> Rendered(done + [line], rewrite, out.value, st')
  {
    WholePrefix(all, done, line);
    out, st' := TransformNext(done, line, st, output, rewrite);
    if out.None? {
      FailureSpreads(all, |done| + 1, rewrite);
    }
  }

  /** No line is too long, no rewriting fails, and the text does not end inside a string or a
      comment. */
  predicate Transformable(raw: seq<string>, cross: bool, rewrite: string -> Option<string>) {
    && (forall i :: 0 <= i < |raw| ==> |raw[i]| <= MAXIMUM_LINE)
    && RenderLines(Kept(raw, cross), rewrite).Some?
    && EndsOutside(Kept(raw, cross))
  }

  /** The first `n` lines are done. */
  predicate Done(raw: seq<string>, n: nat, cross: bool, rewrite: string -> Option<string>, output: string, st: TransformState)
    requires n <= |raw|
  {
    && Rendered(Kept(raw[..n], cross), rewrite, output, st)
    && forall i :: 0 <= i < n ==> |raw[i]| <= MAXIMUM_LINE
  }

  lemma NothingDone(raw: seq<string>, cross: bool, rewrite: string -> Option<string>)
    ensures Done(raw, 0, cross, rewrite, "", FRESH)
  {
  }

  /** The final check: the carried state is fresh exactly when the text ends outside. */
  lemma AllDone(raw: seq<string>, cross: bool, rewrite: string -> Option<string>, output: string, st: TransformState)
    requires Done(raw, |raw|, cross, rewrite, output, st)
    ensures RenderLines(Kept(raw, cross), rewrite) == Some(output) && (st == FRESH <==> Transformable(raw, cross, rewrite))
  {
    assert raw[..|raw|] == raw;
  }

  /** One line as it is read: edited, and passed over when nothing is left of it. */
  method TransformRaw(raw: seq<string>, n: nat, cross: bool, st: TransformState, output: string, rewrite: string -> Option<string>)
    returns (out: Option<string>, st': TransformState)
    requires n < |raw| && WholeLines(Kept(raw, cross)) && Done(raw, n, cross, rewrite, output, st)
    ensures out.None? ==> !Transformable(raw, cross, rewrite)
    ensures out.Some? ==> Done(raw, n + 1, cross, rewrite, out.value, st')
  {
    ghost var all, done := Kept(raw, cross), Kept(raw[..n], cross);
    if |raw[n]| > MAXIMUM_LINE {
      return None, st;
    }
    var line := Edited(raw[n], cross);
    KeptStep(raw, cross, n);
    if line == "" {
      return Some(output), st;
    }
    out, st' := TransformAmong(all, done, line, st, output, rewrite);
  }

  /** The transformer over a dump read as lines, each edited before the lexer sees it: it succeeds
      exactly on a transformable dump, and then it has rendered the text. */
  method TransformDump(raw: seq<string>, cross: bool, rewrite: string -> Option<string>) returns (out: Option<string>)
    requires WholeLines(raw)
    ensures out.Some? <==> Transformable(raw, cross, rewrite)
    ensures out.Some? ==> out == RenderLines(Kept(raw, cross), rewrite)
  {
    KeptWhole(raw, cross);
    out := TransformLines(raw, cross, rewrite);
  }

  method TransformLines(raw: seq<string>, cross: bool, rewrite: string -> Option<string>) returns (out: Option<string>)
    requires WholeLines(Kept(raw, cross))
    ensures out.Some? <==> Transformable(raw, cross, rewrite)
    ensures out.Some? ==> out == RenderLines(Kept(raw, cross), rewrite)
  {
    var st := FRESH;
    var output := "";
    NothingDone(raw, cross, rewrite);
    for n := 0 to |raw|
      invariant Done(raw, n, cross, rewrite, output, st)
    {
      var part, next := TransformRaw(raw, n, cross, st, output, rewrite);
      if part.None? {
        return None;
      }
      output, st := part.value, next;
    }
    AllDone(raw, cross, rewrite, output, st);
    out := if st == FRESH then Some(output) else None;
  }

  lemma KeptStep(raw: seq<string>, cross: bool, n: nat)
    requires n < |raw|
    ensures Kept(raw[..n + 1], cross) == if Edited(raw[n], cross) == "" then Kept(raw[..n], cross) else Kept(raw[..n], cross) + [Edited(raw[n], cross)]
    ensures Kept(raw[..n + 1], cross) <= Kept(raw, cross)
  {
    assert raw[..n + 1][..n] == raw[..n];
    KeptPrefix(raw, cross, n + 1);
  }

  /** With code left as it is, the dump comes out as it went in. */
  lemma {:induction false} IdentityKeepsDump(lines: seq<string>, rewrite: string -> Option<string>)
    requires forall code :: rewrite(code) == Some(code)
    ensures RenderLines(lines, rewrite) == Some(Flat(lines))
  {
    if lines != [] {
      var n := |lines| - 1;
      var rest, line := Flat(lines[..n]), lines[n];
      IdentityKeepsDump(lines[..n], rewrite);
      IdentityRendersText(line, LexAt(rest, START, |rest|), rewrite, 0);
      assert line[0..] == line;
    }
  }

  predicate Untouched(raw: seq<string>, cross: bool) {
    forall i :: 0 <= i < |raw| ==> !Touched(raw[i], cross)
  }

  lemma {:induction false} KeptLength(raw: seq<string>, cross: bool)
    ensures |Flat(Kept(raw, cross))| <= |Flat(raw)|
    ensures Untouched(raw, cross) ==> Flat(Kept(raw, cross)) == Flat(raw)
    ensures !Untouched(raw, cross) ==> |Flat(Kept(raw, cross))| < |Flat(raw)|
  {
    if raw != [] {
      var n := |raw| - 1;
      KeptLength(raw[..n], cross);
      EditedShorter(raw[n], cross);
      FlatKept(raw, cross);
      UntouchedSplits(raw, cross);
    }
  }

  lemma UntouchedSplits(raw: seq<string>, cross: bool)
    requires raw != []
    ensures Untouched(raw, cross) <==> Untouched(raw[..|raw| - 1], cross) && !Touched(raw[|raw| - 1], cross)
  {
    var n := |raw| - 1;
    assert forall i :: 0 <= i < n ==> raw[..n][i] == raw[i];
    if Untouched(raw[..n], cross) && !Touched(raw[n], cross) {
      forall i | 0 <= i < |raw| ensures !Touched(raw[i], cross) {
        if i < n {
          assert raw[..n][i] == raw[i];
        }
      }
    }
  }

  lemma FlatKept(raw: seq<string>, cross: bool)
    requires raw != []
    ensures Flat(Kept(raw, cross)) == Flat(Kept(raw[..|raw| - 1], cross)) + Edited(raw[|raw| - 1], cross)
  {
    var kept, line := Kept(raw[..|raw| - 1], cross), Edited(raw[|raw| - 1], cross);
    if line == "" {
      assert kept + [] == kept;
    } else {
      assert (kept + [line])[..|kept|] == kept;
    }
  }

  /** Of every dump as it is read: with code left as it is, it comes out as it went in exactly when no
      line mentions the sandbox mode and none is a mode statement that loses a mode. */
  lemma DumpKeptIff(raw: seq<string>, cross: bool, rewrite: string -> Option<string>)
    requires forall code :: rewrite(code) == Some(code)
    ensures RenderLines(Kept(raw, cross), rewrite) == Some(Flat(raw)) <==> Untouched(raw, cross)
  {
    IdentityKeepsDump(Kept(raw, cross), rewrite);
    KeptLength(raw, cross);
  }

  /** A row that holds the phrase, in any case, is lost without an error. */
  lemma LostRow(before: string, phrase: string, after: string, cross: bool, rewrite: string -> Option<string>)
    requires Lower(phrase) == PHRASE && |before + phrase + after| <= MAXIMUM_LINE
    ensures var raw := [before + phrase + after];
            Transformable(raw, cross, rewrite) && RenderLines(Kept(raw, cross), rewrite) == Some("")
  {
    var raw := [before + phrase + after];
    PhraseDropsLine(before, phrase, after, cross);
    assert raw[..0] == [];
    assert Kept(raw, cross) == [];
  }

  /** The transformer on a dump of one inserted row with that text: it reports success and writes
      nothing. */
  method LoseRow(rewrite: string -> Option<string>) returns (out: Option<string>)
    ensures out == Some("")
  {
    PhraseIsLower();
    var before, after := "INSERT INTO notes VALUES (1,'", "');\n";
    LostRow(before, PHRASE, after, false, rewrite);
    var raw := [before + PHRASE + after];
    assert raw[0][|raw[0]| - 1] == '\n';
    assert WholeLines(raw) by {
      OneNewline(before, PHRASE, "');", after);
    }
    out := TransformDump(raw, false, rewrite);
  }

  lemma OneNewline(a: string, b: string, c: string, d: string)
    requires '\n' !in a && '\n' !in b && '\n' !in c && d == c + "\n"
    ensures IsLine(a + b + d)
  {
  }
}
