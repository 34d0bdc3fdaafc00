/** The lexical rules of a dump, said on its text: string literals, comments, executable comments and
    the bytes of code.  A text laid out in such pieces is classified piece by piece, and a text ends
    outside strings and comments exactly when it can be laid out so. */
module MysqlLaws {
  import opened Wrappers
  import opened MysqlLexer
  import opened MysqlDump

  // ---------------------------------------------------------------------------------------
  // Pieces

  /** One element of a string body: an ordinary byte, a backslash with the byte after it, or the quote
      twice. */
  datatype Bit = Plain(byte: char) | Escaped(byte: char) | Doubled

  datatype Piece =
    | Byte(byte: char)
    | Literal(mark: char, body: seq<Bit>)
    | Comment(words: string)
    | LineNote(words: string)
    | Open(words: string)
    | Close

  function SpellBit(b: Bit, mark: char): string {
    match b
    case Plain(c) => [c]
    case Escaped(c) => ['\\', c]
    case Doubled => [mark, mark]
  }

  function SpellBits(body: seq<Bit>, mark: char): string {
    if body == [] then "" else SpellBit(body[0], mark) + SpellBits(body[1..], mark)
  }

  function Spelling(p: Piece): (w: string)
    ensures p.Byte? || p.Literal? || p.Close? ==> w != ""
  {
    match p
    case Byte(c) => [c]
    case Literal(mark, body) => [mark] + SpellBits(body, mark) + [mark]
    case Comment(words) => words
    case LineNote(words) => words
    case Open(words) => words
    case Close => "*/"
  }

  /** Strings and comments are copied; code is what is left, executable comments included. */
  function KindOf(p: Piece): Kind {
    if p.Literal? || p.Comment? || p.LineNote? then Verbatim else Code
  }

  /** The word stands in the text at this place. */
  predicate At(text: string, i: nat, word: string) {
    i + |word| <= |text| && forall k :: 0 <= k < |word| ==> text[i + k] == word[k]
  }

  predicate Blank(c: char) {
    c == ' ' || c == '\t' || c == '\r' || c == '\n'
  }

  predicate OrdinaryBits(body: seq<Bit>, mark: char) {
    forall k :: 0 <= k < |body| && body[k].Plain? ==> body[k].byte != mark && body[k].byte != '\\'
  }

  /** The two bytes stand here. */
  predicate Pair(text: string, i: nat, a: char, b: char) {
    i + 1 < |text| && text[i] == a && text[i + 1] == b
  }

  /** A byte of code: it opens nothing and closes nothing.  Inside an executable comment only quotes and
      the closing pair are special. */
  predicate CodeByte(text: string, i: nat, exec: bool)
    requires i < |text|
  {
    && text[i] != '\'' && text[i] != '"'
    && if exec then !Pair(text, i, '*', '/')
       else && !Pair(text, i, '/', '*') && text[i] != '#'
            && !(Pair(text, i, '-', '-') && i + 2 < |text| && Blank(text[i + 2]))
  }

  predicate OpensExecutable(words: string) {
    words == "/*!" || words == "/*M!"
  }

  /** A comment runs from its slash to the first closing pair after it, so that slash-star-slash is one. */
  predicate IsComment(words: string) {
    var n := |words|;
    && n >= 3 && Pair(words, 0, '/', '*') && Pair(words, n - 2, '*', '/')
    && (forall k :: 0 <= k < n - 2 ==> !Pair(words, k, '*', '/'))
    && words[2] != '!' && !(n > 3 && words[2] == 'M' && words[3] == '!')
  }

  /** A line comment runs through its newline. */
  predicate IsLineNote(words: string) {
    && words != "" && (words[0] == '#' || (|words| >= 3 && Pair(words, 0, '-', '-') && Blank(words[2])))
    && forall k :: 0 <= k < |words| - 1 ==> words[k] != '\n'
  }

  /** The piece stands here; `exec` tells whether that is inside an executable comment. */
  predicate Fits(text: string, i: nat, p: Piece, exec: bool) {
    && At(text, i, Spelling(p))
    && var e := i + |Spelling(p)|;
       match p
       case Byte(c) => CodeByte(text, i, exec)
       case Literal(mark, body) =>
         (mark == '\'' || mark == '"') && OrdinaryBits(body, mark) && (e < |text| ==> text[e] != mark)
       case Comment(words) => !exec && IsComment(words)
       case LineNote(words) => !exec && IsLineNote(words) && (e == |text| || words[|words| - 1] == '\n')
       case Open(words) => !exec && OpensExecutable(words)
       case Close => exec
  }

  function Inside(p: Piece, exec: bool): bool {
    if p.Open? then true else if p.Close? then false else exec
  }

  /** A piece with the place where it starts and the place after it, each inside an executable comment
      or not. */
  datatype Tile = Tile(at: nat, exec: bool, piece: Piece, next: nat, after: bool)

  /** The tile stands in the text. */
  predicate Stands(text: string, t: Tile) {
    Fits(text, t.at, t.piece, t.exec) && t.next == t.at + |Spelling(t.piece)| && t.after == Inside(t.piece, t.exec)
  }

  function StandIn(text: string): Tile -> bool {
    t => Stands(text, t)
  }

  // ---------------------------------------------------------------------------------------
  // What the automaton makes of one piece

  function QuoteOf(mark: char): Quote {
    if mark == '\'' then Single else Double
  }

  predicate Code0(text: string, s: Lex, i: nat, exec: bool) {
    i <= |text| && LexAt(text, s, i) == Lex(InCode, exec, 0)
  }

  lemma PeekPair(text: string, i: nat, a: char, b: char)
    ensures Peek(text, i, [a, b]) <==> Pair(text, i, a, b)
  {
    if i + 2 <= |text| {
      assert text[i..i + 2] == [text[i], text[i + 1]];
    }
  }

  lemma PeekIsAt(text: string, i: nat, word: string)
    ensures Peek(text, i, word) <==> At(text, i, word)
  {
    if At(text, i, word) {
      assert text[i..i + |word|] == word;
    } else if Peek(text, i, word) {
      PeekAt(text, i, word);
    }
  }

  /** The automaton on one byte, taken from its state before it. */
  lemma Steps(text: string, s: Lex, i: nat, l: Lex)
    requires i < |text| && LexAt(text, s, i) == l
    ensures KindAt(text, s, i) == Step(text, i, l).0 && LexAt(text, s, i + 1) == Step(text, i, l).1
  {
  }

  lemma BitLaw(text: string, s: Lex, i: nat, b: Bit, mark: char, exec: bool)
    requires mark == '\'' || mark == '"'
    requires i <= |text| && LexAt(text, s, i) == Lex(InString(QuoteOf(mark)), exec, 0) && At(text, i, SpellBit(b, mark))
    requires b.Plain? ==> b.byte != mark && b.byte != '\\'
    ensures LexAt(text, s, i + |SpellBit(b, mark)|) == Lex(InString(QuoteOf(mark)), exec, 0)
    ensures AllKind(text, s, i, i + |SpellBit(b, mark)|, Verbatim)
  {
    var l := Lex(InString(QuoteOf(mark)), exec, 0);
    assert text[i + 0] == SpellBit(b, mark)[0];
    Steps(text, s, i, l);
    if !b.Plain? {
      assert text[i + 1] == SpellBit(b, mark)[1];
      Steps(text, s, i + 1, l.(skip := 1));
    }
  }

  lemma AtSplits(text: string, i: nat, a: string, b: string)
    ensures At(text, i, a + b) <==> At(text, i, a) && At(text, i + |a|, b)
  {
    var w := a + b;
    if At(text, i, w) {
      forall k | 0 <= k < |a| ensures text[i + k] == a[k] {
        assert w[k] == a[k];
      }
      forall k | 0 <= k < |b| ensures text[i + |a| + k] == b[k] {
        assert w[|a| + k] == b[k] && text[i + (|a| + k)] == w[|a| + k];
      }
    }
    if At(text, i, a) && At(text, i + |a|, b) {
      forall k | 0 <= k < |w| ensures text[i + k] == w[k] {
        if k >= |a| {
          assert text[i + |a| + (k - |a|)] == b[k - |a|];
        }
      }
    }
  }

  /** Inside a literal every element of the body stays inside. */
  lemma {:induction false} BodyLaw(text: string, s: Lex, i: nat, body: seq<Bit>, mark: char, exec: bool)
    requires (mark == '\'' || mark == '"') && OrdinaryBits(body, mark)
    requires i <= |text| && LexAt(text, s, i) == Lex(InString(QuoteOf(mark)), exec, 0) && At(text, i, SpellBits(body, mark))
    ensures LexAt(text, s, i + |SpellBits(body, mark)|) == Lex(InString(QuoteOf(mark)), exec, 0)
    ensures AllKind(text, s, i, i + |SpellBits(body, mark)|, Verbatim)
    decreases |body|
  {
    if body != [] {
      var first := SpellBit(body[0], mark);
      AtSplits(text, i, first, SpellBits(body[1..], mark));
      BitLaw(text, s, i, body[0], mark, exec);
      BodyLaw(text, s, i + |first|, body[1..], mark, exec);
    }
  }

  /** The quote opens a literal, in code or in an executable comment. */
  lemma QuoteOpens(text: string, s: Lex, i: nat, mark: char, exec: bool)
    requires Code0(text, s, i, exec) && i < |text| && text[i] == mark && (mark == '\'' || mark == '"')
    ensures KindAt(text, s, i) == Verbatim && LexAt(text, s, i + 1) == Lex(InString(QuoteOf(mark)), exec, 0)
  {
    PeekPair(text, i, '*', '/');
    Steps(text, s, i, Lex(InCode, exec, 0));
  }

  lemma QuoteCloses(text: string, s: Lex, i: nat, mark: char, exec: bool)
    requires i < |text| && text[i] == mark && (mark == '\'' || mark == '"') && !Pair(text, i, mark, mark)
    requires LexAt(text, s, i) == Lex(InString(QuoteOf(mark)), exec, 0)
    ensures KindAt(text, s, i) == Verbatim && Code0(text, s, i + 1, exec)
  {
    Steps(text, s, i, Lex(InString(QuoteOf(mark)), exec, 0));
  }

  lemma EnclosedParts(text: string, i: nat, mark: char, inner: string)
    requires At(text, i, [mark] + inner + [mark])
    ensures text[i] == mark && At(text, i + 1, inner) && text[i + 1 + |inner|] == mark
  {
    AtSplits(text, i, [mark] + inner, [mark]);
    AtSplits(text, i, [mark], inner);
    assert text[i + 0] == [mark][0] && text[i + 1 + |inner| + 0] == [mark][0];
  }

  /** From code, a whole literal is copied, and code goes on after it. */
  lemma LiteralLaw(text: string, s: Lex, i: nat, mark: char, body: seq<Bit>, exec: bool)
    requires Code0(text, s, i, exec) && Fits(text, i, Literal(mark, body), exec)
    ensures AllKind(text, s, i, i + |Spelling(Literal(mark, body))|, Verbatim)
    ensures Code0(text, s, i + |Spelling(Literal(mark, body))|, exec)
  {
    var inner := SpellBits(body, mark);
    EnclosedParts(text, i, mark, inner);
    QuoteOpens(text, s, i, mark, exec);
    BodyLaw(text, s, i + 1, body, mark, exec);
    QuoteCloses(text, s, i + 1 + |inner|, mark, exec);
  }

  lemma CommentOpens(text: string, s: Lex, i: nat, words: string)
    requires Code0(text, s, i, false) && Fits(text, i, Comment(words), false)
    ensures KindAt(text, s, i) == Verbatim && LexAt(text, s, i + 1) == Lex(InBlock, false, 0)
  {
    AtLetter(text, i, words, 0);
    AtLetter(text, i, words, 1);
    PeekPair(text, i, '/', '*');
    NoExecutable(text, i, words);
    Steps(text, s, i, Lex(InCode, false, 0));
  }

  lemma AtLetter(text: string, i: nat, word: string, k: nat)
    requires At(text, i, word) && k < |word|
    ensures text[i + k] == word[k]
  {
  }

  lemma NoExecutable(text: string, i: nat, words: string)
    requires At(text, i, words) && IsComment(words)
    ensures !ExecutableAt(text, i)
  {
    PeekIsAt(text, i, "/*!");
    PeekIsAt(text, i, "/*M!");
    AtLetter(text, i, words, 2);
    if |words| > 3 {
      AtLetter(text, i, words, 3);
    } else {
      assert words[1] == '*' && words[2] == '/';
    }
    if At(text, i, "/*M!") {
      AtLetter(text, i, "/*M!", 2);
      AtLetter(text, i, "/*M!", 3);
    } else if At(text, i, "/*!") {
      AtLetter(text, i, "/*!", 2);
    }
  }

  lemma CommentCloses(text: string, s: Lex, i: nat)
    requires Pair(text, i, '*', '/') && LexAt(text, s, i) == Lex(InBlock, false, 0)
    ensures AllKind(text, s, i, i + 2, Verbatim) && Code0(text, s, i + 2, false)
  {
    PeekPair(text, i, '*', '/');
    Steps(text, s, i, Lex(InBlock, false, 0));
    Steps(text, s, i + 1, Lex(BlockEnd, false, 0));
  }

  /** From code, a comment is copied up to its first closing pair, and code goes on after it. */
  lemma CommentLaw(text: string, s: Lex, i: nat, words: string)
    requires Code0(text, s, i, false) && Fits(text, i, Comment(words), false)
    ensures AllKind(text, s, i, i + |words|, Verbatim) && Code0(text, s, i + |words|, false)
  {
    var n := |words|;
    CommentOpens(text, s, i, words);
    InsideComment(text, s, i, words, n - 2);
    assert text[i + (n - 2)] == words[n - 2] && text[i + (n - 1)] == words[n - 1];
    CommentCloses(text, s, i + n - 2);
  }

  lemma {:induction false} InsideComment(text: string, s: Lex, i: nat, words: string, k: nat)
    requires At(text, i, words) && |words| >= 3 && 1 <= k <= |words| - 2
    requires LexAt(text, s, i + 1) == Lex(InBlock, false, 0)
    requires forall j :: 0 <= j < |words| - 2 ==> !Pair(words, j, '*', '/')
    ensures LexAt(text, s, i + k) == Lex(InBlock, false, 0) && AllKind(text, s, i + 1, i + k, Verbatim)
  {
    if k > 1 {
      InsideComment(text, s, i, words, k - 1);
      PeekPair(text, i + k - 1, '*', '/');
      assert !Pair(words, k - 1, '*', '/');
      assert text[i + (k - 1)] == words[k - 1] && text[i + k] == words[k];
      Steps(text, s, i + k - 1, Lex(InBlock, false, 0));
    }
  }

  /** From code, a line comment is copied through its newline. */
  lemma LineNoteLaw(text: string, s: Lex, i: nat, words: string)
    requires Code0(text, s, i, false) && Fits(text, i, LineNote(words), false)
    ensures AllKind(text, s, i, i + |words|, Verbatim)
    ensures if words[|words| - 1] == '\n' then Code0(text, s, i + |words|, false)
            else LexAt(text, s, i + |words|) == Lex(InLine, false, 0)
  {
    assert text[i + 0] == words[0];
    PeekPair(text, i, '/', '*');
    PeekPair(text, i, '-', '-');
    if words[0] != '#' {
      assert text[i + 1] == words[1] && text[i + 2] == words[2];
    }
    Steps(text, s, i, Lex(InCode, false, 0));
    if |words| > 1 {
      InsideLineNote(text, s, i, words, |words| - 1);
      assert text[i + (|words| - 1)] == words[|words| - 1];
      Steps(text, s, i + |words| - 1, Lex(InLine, false, 0));
    }
  }

  lemma {:induction false} InsideLineNote(text: string, s: Lex, i: nat, words: string, k: nat)
    requires At(text, i, words) && 1 <= k < |words| && LexAt(text, s, i + 1) == Lex(InLine, false, 0)
    requires forall j :: 0 <= j < |words| - 1 ==> words[j] != '\n'
    ensures LexAt(text, s, i + k) == Lex(InLine, false, 0) && AllKind(text, s, i + 1, i + k, Verbatim)
  {
    if k > 1 {
      InsideLineNote(text, s, i, words, k - 1);
      assert text[i + (k - 1)] == words[k - 1];
      Steps(text, s, i + k - 1, Lex(InLine, false, 0));
    }
  }

  lemma OpensHere(text: string, s: Lex, i: nat, words: string)
    requires Code0(text, s, i, false) && Fits(text, i, Open(words), false)
    ensures KindAt(text, s, i) == Code && LexAt(text, s, i + 1) == Lex(InCode, true, 2)
  {
    assert text[i + 0] == words[0] && text[i + 1] == words[1];
    PeekIsAt(text, i, words);
    PeekPair(text, i, '/', '*');
    Steps(text, s, i, Lex(InCode, false, 0));
  }

  lemma SkipsTwo(text: string, s: Lex, i: nat)
    requires i + 2 <= |text| && LexAt(text, s, i) == Lex(InCode, true, 2)
    ensures AllKind(text, s, i, i + 2, Code) && Code0(text, s, i + 2, true)
  {
    Steps(text, s, i, Lex(InCode, true, 2));
    Steps(text, s, i + 1, Lex(InCode, true, 1));
  }

  /** The opening of an executable comment is code, and so is what follows. */
  lemma OpenLaw(text: string, s: Lex, i: nat, words: string)
    requires Code0(text, s, i, false) && Fits(text, i, Open(words), false)
    ensures AllKind(text, s, i, i + |words|, Code) && Code0(text, s, i + |words|, true)
  {
    OpensHere(text, s, i, words);
    SkipsTwo(text, s, i + 1);
    if |words| == 4 {
      assert text[i + 3] == words[3];
      ByteLaw(text, s, i + 3, true);
    }
  }

  lemma CloseLaw(text: string, s: Lex, i: nat)
    requires Code0(text, s, i, true) && Fits(text, i, Close, true)
    ensures AllKind(text, s, i, i + 2, Code) && Code0(text, s, i + 2, false)
  {
    PeekIsAt(text, i, "*/");
    Steps(text, s, i, Lex(InCode, true, 0));
    Steps(text, s, i + 1, Lex(InCode, false, 1));
  }

  /** A byte outside all of these is code. */
  lemma ByteLaw(text: string, s: Lex, i: nat, exec: bool)
    requires Code0(text, s, i, exec) && i < |text| && CodeByte(text, i, exec)
    ensures KindAt(text, s, i) == Code && Code0(text, s, i + 1, exec)
  {
    PeekPair(text, i, '*', '/');
    PeekPair(text, i, '/', '*');
    PeekPair(text, i, '-', '-');
    Steps(text, s, i, Lex(InCode, exec, 0));
  }

  // ---------------------------------------------------------------------------------------
  // A text laid out in pieces

  lemma FitsSomething(text: string, i: nat, p: Piece, exec: bool)
    requires Fits(text, i, p, exec)
    ensures Spelling(p) != ""
  {
  }

  /** The automaton is past the pieces; a last line comment may lack its newline. */
  predicate Past(text: string, s: Lex, i: nat, exec: bool) {
    Code0(text, s, i, exec) || (i == |text| && !exec && LexAt(text, s, i) == Lex(InLine, false, 0))
  }

  lemma PieceLaw(text: string, s: Lex, i: nat, p: Piece, exec: bool)
    requires Code0(text, s, i, exec) && Fits(text, i, p, exec)
    ensures AllKind(text, s, i, i + |Spelling(p)|, KindOf(p)) && Past(text, s, i + |Spelling(p)|, Inside(p, exec))
  {
    match p
    case Byte(c) => ByteLaw(text, s, i, exec);
    case Literal(mark, body) => LiteralLaw(text, s, i, mark, body, exec);
    case Comment(words) => CommentLaw(text, s, i, words);
    case LineNote(words) => LineNoteLaw(text, s, i, words);
    case Open(words) => OpenLaw(text, s, i, words);
    case Close => CloseLaw(text, s, i);
  }

  /** The states and the kinds that the automaton goes through. */
  function States(text: string, s: Lex): (r: seq<Lex>)
    ensures |r| == |text| + 1 && forall i :: 0 <= i <= |text| ==> r[i] == LexAt(text, s, i)
  {
    seq(|text| + 1, i requires 0 <= i <= |text| => LexAt(text, s, i))
  }

  function KindsAt(text: string, s: Lex): (r: seq<Kind>)
    ensures |r| == |text| && forall i :: 0 <= i < |text| ==> r[i] == KindAt(text, s, i)
  {
    seq(|text|, i requires 0 <= i < |text| => KindAt(text, s, i))
  }

  predicate PastIn(states: seq<Lex>, e: nat, exec: bool) {
    e < |states| && (states[e] == Lex(InCode, exec, 0) || (e == |states| - 1 && !exec && states[e] == Lex(InLine, false, 0)))
  }

  predicate HasKind(kinds: seq<Kind>, i: nat, e: nat, kind: Kind) {
    e <= |kinds| && forall k :: i <= k < e ==> kinds[k] == kind
  }

  /** What the laws say of a tile, in terms of states and kinds. */
  predicate Classified(states: seq<Lex>, kinds: seq<Kind>, t: Tile) {
    HasKind(kinds, t.at, t.next, KindOf(t.piece)) && PastIn(states, t.next, t.after)
  }

  /** Tiles take room, and one that the automaton reaches in code is classified. */
  ghost predicate ObeysLaws(stands: Tile -> bool, states: seq<Lex>, kinds: seq<Kind>) {
    && |states| == |kinds| + 1
    && forall t :: stands(t) ==>
         t.at < t.next <= |kinds| && (states[t.at] == Lex(InCode, t.exec, 0) ==> Classified(states, kinds, t))
  }

  lemma AutomatonObeysLaws(text: string, s: Lex)
    ensures ObeysLaws(StandIn(text), States(text, s), KindsAt(text, s))
  {
    forall t: Tile | StandIn(text)(t)
      ensures t.at < t.next <= |text|
      ensures States(text, s)[t.at] == Lex(InCode, t.exec, 0) ==> Classified(States(text, s), KindsAt(text, s), t)
    {
      FitsSomething(text, t.at, t.piece, t.exec);
      if States(text, s)[t.at] == Lex(InCode, t.exec, 0) {
        TileLaw(text, s, t);
      }
    }
  }

  lemma TileLaw(text: string, s: Lex, t: Tile)
    requires Stands(text, t) && t.at < t.next <= |text| && Code0(text, s, t.at, t.exec)
    ensures Classified(States(text, s), KindsAt(text, s), t)
  {
    PieceLaw(text, s, t.at, t.piece, t.exec);
    forall k | t.at <= k < t.next ensures KindsAt(text, s)[k] == KindOf(t.piece) {
      assert KindAt(text, s, k) == KindOf(t.piece);
    }
  }

  // ---------------------------------------------------------------------------------------
  // Layouts

  predicate Follows(t: Tile, u: Tile) {
    u.at == t.next && u.exec == t.after
  }

  /** The tiles stand one after the other from the start. */
  predicate LaidOut(stands: Tile -> bool, tiles: seq<Tile>) {
    && (tiles != [] ==> tiles[0].at == 0 && !tiles[0].exec)
    && (forall j :: 0 <= j < |tiles| ==> stands(tiles[j]))
    && (forall j, k :: 0 <= j < |tiles| && 0 <= k < |tiles| && k == j + 1 ==> Follows(tiles[j], tiles[k]))
  }

  function EndOf(tiles: seq<Tile>): nat {
    if tiles == [] then 0 else tiles[|tiles| - 1].next
  }

  predicate EndsInside(tiles: seq<Tile>) {
    tiles != [] && tiles[|tiles| - 1].after
  }

  /** The bytes have the kinds of the pieces. */
  predicate Coloured(kinds: seq<Kind>, tiles: seq<Tile>) {
    forall j :: 0 <= j < |tiles| ==> HasKind(kinds, tiles[j].at, tiles[j].next, KindOf(tiles[j].piece))
  }

  /** The automaton reaches each tile of a layout in code, and classifies it. */
  lemma {:induction false} PiecesLaw(stands: Tile -> bool, states: seq<Lex>, kinds: seq<Kind>, tiles: seq<Tile>, j: nat)
    requires ObeysLaws(stands, states, kinds) && states[0] == START && LaidOut(stands, tiles) && j < |tiles|
    ensures Classified(states, kinds, tiles[j])
  {
    assert stands(tiles[j]);
    if j > 0 {
      PiecesLaw(stands, states, kinds, tiles, j - 1);
      assert Follows(tiles[j - 1], tiles[j]);
    }
  }

  lemma AllPieces(stands: Tile -> bool, states: seq<Lex>, kinds: seq<Kind>, tiles: seq<Tile>)
    requires ObeysLaws(stands, states, kinds) && states[0] == START && LaidOut(stands, tiles)
    ensures Coloured(kinds, tiles) && PastIn(states, EndOf(tiles), EndsInside(tiles))
  {
    if tiles != [] {
      PiecesLaw(stands, states, kinds, tiles, |tiles| - 1);
    }
    forall j | 0 <= j < |tiles| ensures HasKind(kinds, tiles[j].at, tiles[j].next, KindOf(tiles[j].piece)) {
      PiecesLaw(stands, states, kinds, tiles, j);
    }
  }

  /** The text consists of these pieces, with every executable comment closed. */
  predicate MadeOf(text: string, tiles: seq<Tile>) {
    LaidOut(StandIn(text), tiles) && EndOf(tiles) == |text| && !EndsInside(tiles)
  }

  ghost predicate MadeOfPieces(text: string) {
    exists tiles :: MadeOf(text, tiles)
  }

  lemma MadeOfKinds(text: string, tiles: seq<Tile>)
    requires MadeOf(text, tiles)
    ensures Coloured(KindsAt(text, START), tiles) && PastIn(States(text, START), |text|, false)
  {
    AutomatonObeysLaws(text, START);
    AllPieces(StandIn(text), States(text, START), KindsAt(text, START), tiles);
  }

  // ---------------------------------------------------------------------------------------
  // Every text that ends outside strings and comments is laid out in pieces

  lemma {:induction false} FindBody(text: string, s: Lex, i: nat, mark: char, exec: bool) returns (body: seq<Bit>, closed: bool)
    requires mark == '\'' || mark == '"'
    requires i <= |text| && LexAt(text, s, i) == Lex(InString(QuoteOf(mark)), exec, 0)
    ensures OrdinaryBits(body, mark) && At(text, i, SpellBits(body, mark))
    ensures closed ==>
      var e := i + |SpellBits(body, mark)|; e < |text| && text[e] == mark && (e + 1 < |text| ==> text[e + 1] != mark)
    ensures !closed ==> LexAt(text, s, |text|).context.InString?
    decreases |text| - i
  {
    body, closed := [], false;
    if i < |text| {
      var l := Lex(InString(QuoteOf(mark)), exec, 0);
      if text[i] == mark && !Pair(text, i, mark, mark) {
        closed := true;
      } else if text[i] == '\\' && i + 1 == |text| {
        Steps(text, s, i, l);
      } else {
        var b := if text[i] == '\\' then Escaped(text[i + 1]) else if text[i] == mark then Doubled else Plain(text[i]);
        BitLaw(text, s, i, b, mark, exec);
        var rest;
        rest, closed := FindBody(text, s, i + |SpellBit(b, mark)|, mark, exec);
        body := [b] + rest;
        BodyStands(text, i, b, rest, mark);
      }
    }
  }

  lemma BodyStands(text: string, i: nat, b: Bit, rest: seq<Bit>, mark: char)
    requires At(text, i, SpellBit(b, mark)) && At(text, i + |SpellBit(b, mark)|, SpellBits(rest, mark))
    ensures SpellBits([b] + rest, mark) == SpellBit(b, mark) + SpellBits(rest, mark)
    ensures At(text, i, SpellBits([b] + rest, mark))
  {
    assert ([b] + rest)[1..] == rest;
    AtSplits(text, i, SpellBit(b, mark), SpellBits(rest, mark));
  }

  lemma {:induction false} FindClose(text: string, s: Lex, i: nat) returns (e: nat, closed: bool)
    requires i <= |text| && LexAt(text, s, i) == Lex(InBlock, false, 0)
    ensures i <= e <= |text| && forall k :: i <= k < e ==> !Pair(text, k, '*', '/')
    ensures if closed then Pair(text, e, '*', '/') else LexAt(text, s, |text|).context.InBlock?
    decreases |text| - i
  {
    e, closed := i, false;
    if i < |text| {
      PeekPair(text, i, '*', '/');
      if Pair(text, i, '*', '/') {
        closed := true;
      } else {
        Steps(text, s, i, Lex(InBlock, false, 0));
        e, closed := FindClose(text, s, i + 1);
      }
    }
  }

  /** The end of the line: past its newline, or the end of the text. */
  lemma {:induction false} FindNewline(text: string, i: nat) returns (e: nat)
    requires i < |text|
    ensures i < e <= |text| && (forall k :: i <= k < e - 1 ==> text[k] != '\n') && (e == |text| || text[e - 1] == '\n')
    decreases |text| - i
  {
    e := i + 1;
    if text[i] != '\n' && e < |text| {
      e := FindNewline(text, e);
    }
  }

  lemma NoEarlierClose(text: string, i: nat, e: nat, words: string)
    requires i < e && e + 2 <= |text| && text[i] != '*' && forall k :: i + 1 <= k < e ==> !Pair(text, k, '*', '/')
    requires words == text[i..e + 2]
    ensures forall k :: 0 <= k < |words| - 2 ==> !Pair(words, k, '*', '/')
  {
    forall k | 0 <= k < |words| - 2 ensures !Pair(words, k, '*', '/') {
      if k > 0 {
        assert !Pair(text, i + k, '*', '/');
      }
    }
  }

  /** The comment that starts here, if the text ends outside comments. */
  lemma FindComment(text: string, s: Lex, i: nat) returns (p: Piece)
    requires Code0(text, s, i, false) && Pair(text, i, '/', '*') && !At(text, i, "/*!") && !At(text, i, "/*M!")
    requires !LexAt(text, s, |text|).context.InBlock?
    ensures Fits(text, i, p, false)
  {
    PeekPair(text, i, '/', '*');
    PeekIsAt(text, i, "/*!");
    PeekIsAt(text, i, "/*M!");
    Steps(text, s, i, Lex(InCode, false, 0));
    var e, closed := FindClose(text, s, i + 1);
    assert closed;
    var words := text[i..e + 2];
    NoEarlierClose(text, i, e, words);
    assert Pair(words, 0, '/', '*') && Pair(words, |words| - 2, '*', '/');
    NotOpening(text, i, words);
    p := Comment(words);
  }

  lemma NotOpening(text: string, i: nat, words: string)
    requires At(text, i, words) && |words| >= 3 && Pair(words, 0, '/', '*') && !At(text, i, "/*!") && !At(text, i, "/*M!")
    ensures words[2] != '!' && !(|words| > 3 && words[2] == 'M' && words[3] == '!')
  {
    assert text[i + 0] == words[0] && text[i + 1] == words[1] && text[i + 2] == words[2];
    if |words| > 3 {
      assert text[i + 3] == words[3];
    }
  }

  lemma FindLineNote(text: string, i: nat) returns (p: Piece)
    requires i < |text| && (text[i] == '#' || (Pair(text, i, '-', '-') && i + 2 < |text| && Blank(text[i + 2])))
    ensures Fits(text, i, p, false)
  {
    var e := FindNewline(text, i);
    var words := text[i..e];
    if text[i] != '#' {
      assert text[i] != '\n' && text[i + 1] != '\n';
      assert e >= i + 3;
    }
    p := LineNote(words);
  }

  lemma Enclosed(text: string, i: nat, mark: char, inner: string)
    requires i < |text| && text[i] == mark && At(text, i + 1, inner)
    requires i + 1 + |inner| < |text| && text[i + 1 + |inner|] == mark
    ensures At(text, i, [mark] + inner + [mark])
  {
    AtSplits(text, i, [mark], inner);
    AtSplits(text, i, [mark] + inner, [mark]);
  }

  lemma FindLiteral(text: string, s: Lex, i: nat, exec: bool) returns (p: Piece)
    requires Code0(text, s, i, exec) && i < |text| && (text[i] == '\'' || text[i] == '"')
    requires !LexAt(text, s, |text|).context.InString?
    ensures Fits(text, i, p, exec)
  {
    QuoteOpens(text, s, i, text[i], exec);
    var body, closed := FindBody(text, s, i + 1, text[i], exec);
    Enclosed(text, i, text[i], SpellBits(body, text[i]));
    p := Literal(text[i], body);
  }

  /** The piece that starts here. */
  lemma FindPiece(text: string, s: Lex, i: nat, exec: bool) returns (p: Piece)
    requires Code0(text, s, i, exec) && i < |text|
    requires var l := LexAt(text, s, |text|); !l.context.InString? && !l.context.InBlock?
    ensures Fits(text, i, p, exec)
  {
    if text[i] == '\'' || text[i] == '"' {
      p := FindLiteral(text, s, i, exec);
    } else if CodeByte(text, i, exec) {
      p := Byte(text[i]);
    } else if exec {
      p := Close;
    } else if At(text, i, "/*!") {
      p := Open("/*!");
    } else if At(text, i, "/*M!") {
      p := Open("/*M!");
    } else if Pair(text, i, '/', '*') {
      p := FindComment(text, s, i);
    } else {
      p := FindLineNote(text, i);
    }
  }

  /** A tile stands here that the automaton leaves for code or for the end. */
  predicate Leads(stands: Tile -> bool, states: seq<Lex>, i: nat, exec: bool, t: Tile) {
    && stands(t) && t.at == i < t.next < |states| && t.exec == exec
    && (t.next < |states| - 1 ==> states[t.next] == Lex(InCode, t.after, 0))
  }

  ghost predicate LeadsOn(stands: Tile -> bool, states: seq<Lex>, i: nat, exec: bool) {
    exists t :: Leads(stands, states, i, exec, t)
  }

  /** Wherever the automaton is in code, a tile stands. */
  ghost predicate Tiled(stands: Tile -> bool, states: seq<Lex>) {
    forall i: nat, exec {:trigger LeadsOn(stands, states, i, exec)} ::
      i < |states| - 1 && states[i] == Lex(InCode, exec, 0) ==> LeadsOn(stands, states, i, exec)
  }

  lemma TextIsTiled(text: string, s: Lex)
    requires var l := LexAt(text, s, |text|); !l.context.InString? && !l.context.InBlock?
    ensures Tiled(StandIn(text), States(text, s))
  {
    forall i: nat, exec | i < |text| && States(text, s)[i] == Lex(InCode, exec, 0) ensures LeadsOn(StandIn(text), States(text, s), i, exec) {
      var p := FindPiece(text, s, i, exec);
      var t := Tile(i, exec, p, i + |Spelling(p)|, Inside(p, exec));
      FitsSomething(text, i, p, exec);
      TileLaw(text, s, t);
      assert Leads(StandIn(text), States(text, s), i, exec, t);
    }
  }

  lemma LaidOutMore(stands: Tile -> bool, tiles: seq<Tile>, t: Tile)
    requires LaidOut(stands, tiles) && stands(t) && t.at == EndOf(tiles) && t.exec == EndsInside(tiles)
    ensures LaidOut(stands, tiles + [t]) && EndOf(tiles + [t]) == t.next && EndsInside(tiles + [t]) == t.after
  {
    var more := tiles + [t];
    forall j | 0 <= j < |more| ensures stands(more[j]) {
      assert more[j] == if j < |tiles| then tiles[j] else t;
    }
    forall j, k | 0 <= j < |more| && 0 <= k < |more| && k == j + 1 ensures Follows(more[j], more[k]) {
      assert more[j] == tiles[j];
      assert more[k] == if k < |tiles| then tiles[k] else t;
    }
    assert more[|more| - 1] == t;
    assert more[0] == if tiles == [] then t else tiles[0];
  }

  /** Goes on from a layout that ends in code until the text is covered. */
  lemma {:induction false} LayOut(stands: Tile -> bool, states: seq<Lex>, tiles: seq<Tile>) returns (all: seq<Tile>)
    requires Tiled(stands, states) && LaidOut(stands, tiles) && EndOf(tiles) < |states|
    requires EndOf(tiles) < |states| - 1 ==> states[EndOf(tiles)] == Lex(InCode, EndsInside(tiles), 0)
    ensures LaidOut(stands, all) && EndOf(all) == |states| - 1
    decreases |states| - EndOf(tiles)
  {
    all := tiles;
    if EndOf(tiles) < |states| - 1 {
      assert LeadsOn(stands, states, EndOf(tiles), EndsInside(tiles));
      var t :| Leads(stands, states, EndOf(tiles), EndsInside(tiles), t);
      LaidOutMore(stands, tiles, t);
      all := LayOut(stands, states, tiles + [t]);
    }
  }

  lemma EndsFresh(text: string)
    ensures Carries(LexAt(text, START, |text|), FRESH) <==> PastIn(States(text, START), |text|, false)
  {
    assert ToLex(FRESH) == Lex(InCode, false, 0) && States(text, START)[|text|] == LexAt(text, START, |text|);
  }

  lemma FindPieces(text: string) returns (tiles: seq<Tile>)
    requires PastIn(States(text, START), |text|, false)
    ensures MadeOf(text, tiles)
  {
    AutomatonObeysLaws(text, START);
    TextIsTiled(text, START);
    tiles := LayOut(StandIn(text), States(text, START), []);
    AllPieces(StandIn(text), States(text, START), KindsAt(text, START), tiles);
  }

  /** A text ends outside strings and comments exactly when it is made of pieces. */
  lemma OutsideIffMadeOfPieces(text: string)
    ensures Carries(LexAt(text, START, |text|), FRESH) <==> MadeOfPieces(text)
  {
    EndsFresh(text);
    if PastIn(States(text, START), |text|, false) {
      var tiles := FindPieces(text);
    }
    if tiles :| MadeOf(text, tiles) {
      MadeOfKinds(text, tiles);
    }
  }

  /** In each line, the bytes taken for code and the bytes copied are those of the pieces of the text. */
  lemma LinesFollowPieces(lines: seq<string>, text: string, tiles: seq<Tile>, n: nat, i: nat)
    requires WholeLines(lines) && text == Flat(lines) && MadeOf(text, tiles) && n < |lines| && i < |lines[n]|
    ensures Coloured(KindsAt(text, START), tiles)
    ensures var at := |Flat(lines[..n])| + i; at < |text| && KindInLine(lines, n, i) == KindsAt(text, START)[at]
  {
    MadeOfKinds(text, tiles);
    LinesAgreeWithText(lines, n, i);
  }

  /** What the transformer takes a byte of a line for. */
  function KindInLine(lines: seq<string>, n: nat, i: nat): Kind
    requires n < |lines| && i < |lines[n]|
  {
    KindAt(lines[n], LexAt(Flat(lines[..n]), START, |Flat(lines[..n])|), i)
  }

  /** The transformer succeeds exactly when the lines are short, the code is rewritten, and the text that
      reaches the lexer is made of pieces. */
  method TransformPieces(raw: seq<string>, cross: bool, rewrite: string -> Option<string>) returns (out: Option<string>)
    requires WholeLines(raw)
    ensures out.Some? <==>
      && (forall i :: 0 <= i < |raw| ==> |raw[i]| <= MAXIMUM_LINE)
      && RenderLines(Kept(raw, cross), rewrite).Some?
      && MadeOfPieces(Flat(Kept(raw, cross)))
    ensures out.Some? ==> out == RenderLines(Kept(raw, cross), rewrite)
  {
    out := TransformDump(raw, cross, rewrite);
    OutsideIffMadeOfPieces(Flat(Kept(raw, cross)));
  }
}
