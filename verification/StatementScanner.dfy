/**
 isSingleServerStatement (migration.cpp:93-121): the scanner that lets a migration file hold
 one server statement only, against a tokeniser that classes every character.
 */
module StatementScanner {
  import opened Characters

  datatype Class = Code | Quote | Comment

  datatype Mode = InCode | InSingle | InDouble | InBacktick | InLine | InBlock

  datatype Token = Token(len: nat, kind: Class, next: Mode)

  predicate Quoted(mode: Mode) {
    mode.InSingle? || mode.InDouble? || mode.InBacktick?
  }

  function Delimiter(mode: Mode): char {
    if mode.InSingle? then '\'' else if mode.InDouble? then '"' else '`'
  }

  /** The token at the head of the non-empty text `s`, read in `mode`. */
  function Head(s: string, mode: Mode): (t: Token)
    requires s != ""
    ensures 1 <= t.len <= |s|
  {
    var c := s[0];
    var next := if |s| > 1 then s[1] else '\0';
    match mode
    case InLine => Token(1, Comment, if c == '\n' then InCode else InLine)
    case InBlock =>
      if c == '*' && next == '/' then Token(2, Comment, InCode) else Token(1, Comment, InBlock)
    case InCode =>
      if c == '#' then Token(1, Comment, InLine)
      else if c == '-' && next == '-' && |s| > 2 && IsSpace(s[2]) then Token(2, Comment, InLine)
      else if c == '/' && next == '*' then Token(2, Comment, InBlock)
      else if c == '\'' then Token(1, Quote, InSingle)
      else if c == '"' then Token(1, Quote, InDouble)
      else if c == '`' then Token(1, Quote, InBacktick)
      else Token(1, Code, InCode)
    case _ =>
      var d := Delimiter(mode);
      if c == '\\' then Token(if |s| == 1 then 1 else 2, Quote, mode)
      else if c == d && next == d then Token(2, Quote, mode)
      else Token(1, Quote, if c == d then InCode else mode)
  }

  function Fill(n: nat, kind: Class): (r: seq<Class>)
    ensures |r| == n && forall k :: 0 <= k < n ==> r[k] == kind
  {
    seq(n, _ => kind)
  }

  /** The class of every character of `s`, read from `mode`. */
  function Classes(s: string, mode: Mode): (r: seq<Class>)
    ensures |r| == |s|
    decreases |s|
  {
    if s == "" then []
    else
      var t := Head(s, mode);
      Fill(t.len, t.kind) + Classes(s[t.len..], t.next)
  }

  /** The mode in which the text ends. */
  function EndMode(s: string, mode: Mode): (r: Mode)
    ensures s == "" ==> r == mode
    decreases |s|
  {
    if s == "" then mode
    else
      var t := Head(s, mode);
      EndMode(s[t.len..], t.next)
  }

  /** Character `i` is code other than white space. */
  predicate Bare(s: string, cs: seq<Class>, i: int)
    requires |cs| == |s|
  {
    0 <= i < |s| && cs[i].Code? && !IsSpace(s[i])
  }

  predicate Terminates(s: string, cs: seq<Class>, i: int)
    requires |cs| == |s|
  {
    Bare(s, cs, i) && s[i] == ';'
  }

  predicate Substance(s: string, cs: seq<Class>, i: int)
    requires |cs| == |s|
  {
    Bare(s, cs, i) && s[i] != ';'
  }

  /** Some terminator, or some code, lies before position `n`. */
  predicate EndedBefore(s: string, cs: seq<Class>, n: int)
    requires |cs| == |s|
  {
    exists k :: 0 <= k < n && Terminates(s, cs, k)
  }

  predicate SubstanceBefore(s: string, cs: seq<Class>, n: int)
    requires |cs| == |s|
  {
    exists k :: 0 <= k < n && Substance(s, cs, k)
  }

  /** No code before position `n` follows a terminator. */
  predicate SingleBefore(s: string, cs: seq<Class>, n: int)
    requires |cs| == |s|
  {
    forall i, j :: 0 <= i < j < n && Terminates(s, cs, i) ==> !Substance(s, cs, j)
  }

  predicate Closed(mode: Mode) {
    mode.InCode? || mode.InLine?
  }

  /** What a single server statement is: some code, none of it after a terminator, nothing left open. */
  predicate Accepts(sql: string) {
    var cs := Classes(sql, InCode);
    SubstanceBefore(sql, cs, |sql|) && SingleBefore(sql, cs, |sql|) && Closed(EndMode(sql, InCode))
  }

  method IsSingleServerStatement(sql: string) returns (ok: bool)
    ensures ok == Accepts(sql)
  {
    hide Classes, EndMode, EndedBefore, SubstanceBefore, SingleBefore;
    var state := InCode;
    var ended, sawCode := false, false;
    ghost var cs := Classes(sql, InCode);
    FlagsAtStart(sql, cs);
    var i := 0;
    while i < |sql|
      invariant 0 <= i <= |sql|
      invariant cs[i..] == Classes(sql[i..], state)
      invariant EndMode(sql, InCode) == EndMode(sql[i..], state)
      invariant ended <==> EndedBefore(sql, cs, i)
      invariant sawCode <==> SubstanceBefore(sql, cs, i)
      invariant SingleBefore(sql, cs, i)
    {
      ghost var t := Head(sql[i..], state);
      Advance(sql, cs, i, state);
      FlagsAfter(sql, cs, i, t);
      var c := sql[i];
      var next := if i + 1 < |sql| then sql[i + 1] else '\0';
      if state.InLine? {
        if c == '\n' { state := InCode; }
      } else if state.InBlock? {
        if c == '*' && next == '/' { state := InCode; i := i + 1; }
      } else if Quoted(state) {
        var d := Delimiter(state);
        if c == '\\' {
          if i + 1 < |sql| { i := i + 1; }
        } else if c == d {
          if next == d { i := i + 1; } else { state := InCode; }
        }
      } else if c == '#' || (c == '-' && next == '-' && i + 2 < |sql| && IsSpace(sql[i + 2])) {
        state := InLine;
        if c == '-' { i := i + 1; }
      } else if c == '/' && next == '*' {
        state := InBlock;
        i := i + 1;
      } else if c == '\'' {
        state := InSingle;
      } else if c == '"' {
        state := InDouble;
      } else if c == '`' {
        state := InBacktick;
      } else if c == ';' {
        ended := true;
      } else {
        if ended && !IsSpace(c) {
          return false;
        }
        if !IsSpace(c) { sawCode := true; }
      }
      i := i + 1;
    }
    return sawCode && Closed(state);
  }

  lemma FlagsAtStart(s: string, cs: seq<Class>)
    requires |cs| == |s|
    ensures !EndedBefore(s, cs, 0) && !SubstanceBefore(s, cs, 0) && SingleBefore(s, cs, 0)
  {
  }

  /** How the three flags move over one token. */
  lemma FlagsAfter(s: string, cs: seq<Class>, i: nat, t: Token)
    requires |cs| == |s| && i < |s| && 1 <= t.len && i + t.len <= |s|
    requires forall k :: i <= k < i + t.len ==> cs[k] == t.kind
    requires t.kind.Code? ==> t.len == 1
    ensures var j := i + t.len; var bare := t.kind.Code? && !IsSpace(s[i]);
      && (EndedBefore(s, cs, j) <==> EndedBefore(s, cs, i) || (bare && s[i] == ';'))
      && (SubstanceBefore(s, cs, j) <==> SubstanceBefore(s, cs, i) || (bare && s[i] != ';'))
      && (SingleBefore(s, cs, j) <==>
          SingleBefore(s, cs, i) && !(EndedBefore(s, cs, i) && bare && s[i] != ';'))
      && (!SingleBefore(s, cs, j) ==> !SingleBefore(s, cs, |s|))
  {
    assert Bare(s, cs, i) <==> t.kind.Code? && !IsSpace(s[i]);
    forall k | i <= k < i + t.len && Bare(s, cs, k) ensures k == i {}
    var j := i + t.len;
    if Terminates(s, cs, i) { assert EndedBefore(s, cs, j); }
    if Substance(s, cs, i) { assert SubstanceBefore(s, cs, j); }
  }

  /** Reading one token from position `i`. */
  lemma Advance(sql: string, cs: seq<Class>, i: nat, mode: Mode)
    requires |cs| == |sql| && i < |sql|
    requires cs[i..] == Classes(sql[i..], mode)
    ensures var t := Head(sql[i..], mode);
      && i + t.len <= |sql|
      && (forall k :: i <= k < i + t.len ==> cs[k] == t.kind)
      && cs[i + t.len..] == Classes(sql[i + t.len..], t.next)
      && EndMode(sql[i..], mode) == EndMode(sql[i + t.len..], t.next)
  {
    var t := Head(sql[i..], mode);
    assert sql[i..][t.len..] == sql[i + t.len..];
    assert cs[i + t.len..] == cs[i..][t.len..];
    forall k | i <= k < i + t.len ensures cs[k] == t.kind {
      assert cs[k] == cs[i..][k - i];
    }
  }

  lemma OneToken(s: string, mode: Mode)
    requires s != ""
    ensures var t := Head(s, mode);
      && Classes(s, mode) == Fill(t.len, t.kind) + Classes(s[t.len..], t.next)
      && EndMode(s, mode) == EndMode(s[t.len..], t.next)
  {
  }

  lemma DropOfJoin(a: string, t: string, n: nat)
    requires n <= |a|
    ensures (a + t)[n..] == a[n..] + t
  {
  }

  lemma Associative(x: seq<Class>, y: seq<Class>, z: seq<Class>)
    ensures (x + y) + z == x + (y + z)
  {
  }

  /** Text read after `a`, where `a` ends in code and the text starts with a terminator. */
  lemma {:induction false} Concatenation(a: string, t: string, mode: Mode)
    requires ";" <= t && EndMode(a, mode) == InCode
    ensures Classes(a + t, mode) == Classes(a, mode) + Classes(t, InCode)
    ensures EndMode(a + t, mode) == EndMode(t, InCode)
    decreases |a|
  {
    if a == "" {
      assert a + t == t;
    } else {
      hide Classes, EndMode, Head;
      var h := Head(a, mode);
      var rest := a[h.len..];
      OneToken(a, mode);
      OneToken(a + t, mode);
      HeadUnmoved(a, t, mode);
      DropOfJoin(a, t, h.len);
      Concatenation(rest, t, h.next);
      Associative(Fill(h.len, h.kind), Classes(rest, h.next), Classes(t, InCode));
    }
  }

  /** A terminator behind `a` is never taken for the rest of a token of `a`. */
  lemma HeadUnmoved(a: string, t: string, mode: Mode)
    requires a != "" && ";" <= t
    requires Head(a, mode).len == |a| ==> Head(a, mode).next == InCode
    ensures Head(a + t, mode) == Head(a, mode)
  {
  }

  predicate Terminated(a: string) {
    Accepts(a) && EndMode(a, InCode).InCode?
  }

  /** What may follow a terminator: anything closed that holds no code but further terminators. */
  predicate Trailing(t: string) {
    !SubstanceBefore(t, Classes(t, InCode), |t|) && Closed(EndMode(t, InCode))
  }

  /** The flags of a statement, a terminator and a further text. */
  lemma JoinedFlags(a: string, ca: seq<Class>, t: string, ct: seq<Class>)
    requires |ca| == |a| && |ct| == |t|
    requires SubstanceBefore(a, ca, |a|) && SingleBefore(a, ca, |a|)
    ensures var s, cs := a + ";" + t, ca + [Code] + ct;
      && SubstanceBefore(s, cs, |s|)
      && (SingleBefore(s, cs, |s|) <==> !SubstanceBefore(t, ct, |t|))
  {
    var s, cs := a + ";" + t, ca + [Code] + ct;
    forall i | 0 <= i < |a| ensures Bare(s, cs, i) == Bare(a, ca, i) {}
    assert Terminates(s, cs, |a|);
    forall j | |a| < j < |s| ensures Substance(s, cs, j) == Substance(t, ct, j - |a| - 1) {}
    var k :| 0 <= k < |a| && Substance(a, ca, k);
    assert Substance(s, cs, k);
    if SubstanceBefore(t, ct, |t|) {
      var i :| 0 <= i < |t| && Substance(t, ct, i);
      assert Substance(s, cs, i + |a| + 1);
    } else {
      forall i, j | 0 <= i < j < |s| && Terminates(s, cs, i) ensures !Substance(s, cs, j) {
        assert j < |a| ==> Terminates(a, ca, i) && !Substance(a, ca, j);
      }
    }
  }

  /** Behind an accepted statement and a terminator, exactly the trailing texts are accepted. */
  lemma TerminatorLaw(a: string, t: string)
    requires Terminated(a)
    ensures Accepts(a + ";" + t) <==> Trailing(t)
  {
    hide Classes, EndMode, SubstanceBefore, SingleBefore;
    var ca, ct := Classes(a, InCode), Classes(t, InCode);
    var s := a + ";" + t;
    assert s == a + (";" + t);
    Concatenation(a, ";" + t, InCode);
    TerminatorToken(t);
    assert Classes(s, InCode) == ca + [Code] + ct;
    JoinedFlags(a, ca, t, ct);
  }

  lemma TerminatorToken(t: string)
    ensures Classes(";" + t, InCode) == [Code] + Classes(t, InCode)
    ensures EndMode(";" + t, InCode) == EndMode(t, InCode)
  {
    assert (";" + t)[1..] == t;
    assert Fill(1, Code) == [Code];
  }

  /** One statement may be terminated; a second one behind it is always rejected. */
  lemma SecondStatementRejected(a: string, b: string)
    requires Terminated(a) && Accepts(b)
    ensures Accepts(a + ";") && !Accepts(a + ";" + b)
  {
    assert a + ";" + "" == a + ";";
    TerminatorLaw(a, "");
    TerminatorLaw(a, b);
  }

  // ---- What is code, quoted, or comment ----

  /** The text is of one class throughout when it is read as code, and leaves the scanner in code. */
  predicate AllOf(kind: Class, s: string) {
    Classes(s, InCode) == Fill(|s|, kind) && EndMode(s, InCode) == InCode
  }

  lemma {:induction false} LineBody(body: string)
    requires '\n' !in body
    ensures Classes(body + "\n", InLine) == Fill(|body| + 1, Comment) && EndMode(body + "\n", InLine) == InCode
    decreases |body|
  {
    var s := body + "\n";
    if body != "" {
      assert s[1..] == body[1..] + "\n";
      LineBody(body[1..]);
      assert Fill(1, Comment) + Fill(|body|, Comment) == Fill(|body| + 1, Comment);
    }
  }

  lemma {:induction false} BlockBody(body: string)
    requires forall k :: 0 <= k < |body| - 1 ==> !(body[k] == '*' && body[k + 1] == '/')
    ensures Classes(body + "*/", InBlock) == Fill(|body| + 2, Comment) && EndMode(body + "*/", InBlock) == InCode
    decreases |body|
  {
    var s := body + "*/";
    if body == "" {
      assert s[2..] == "";
    } else {
      assert s[1..] == body[1..] + "*/";
      BlockBody(body[1..]);
      assert Fill(1, Comment) + Fill(|body| + 1, Comment) == Fill(|body| + 2, Comment);
    }
  }

  /** A hash, or two dashes before white space, comment out the line; a block comment runs to its end mark. */
  lemma CommentLaws(body: string)
    ensures '\n' !in body ==> AllOf(Comment, "#" + (body + "\n"))
    ensures '\n' !in body && body != "" && IsSpace(body[0]) ==> AllOf(Comment, "--" + (body + "\n"))
    ensures (forall k :: 0 <= k < |body| - 1 ==> !(body[k] == '*' && body[k + 1] == '/')) ==>
      AllOf(Comment, "/*" + (body + "*/"))
  {
    if '\n' !in body {
      LineBody(body);
      var s := "#" + (body + "\n");
      assert s[1..] == body + "\n";
      assert Fill(1, Comment) + Fill(|body| + 1, Comment) == Fill(|s|, Comment);
      var dashed := "--" + (body + "\n");
      assert dashed[2..] == body + "\n";
      assert Fill(2, Comment) + Fill(|body| + 1, Comment) == Fill(|dashed|, Comment);
    }
    if forall k :: 0 <= k < |body| - 1 ==> !(body[k] == '*' && body[k + 1] == '/') {
      BlockBody(body);
      var s := "/*" + (body + "*/");
      assert s[2..] == body + "*/";
      assert Fill(2, Comment) + Fill(|body| + 2, Comment) == Fill(|s|, Comment);
    }
  }

  lemma {:induction false} QuotedBody(body: string, mode: Mode)
    requires Quoted(mode) && forall k :: 0 <= k < |body| ==> body[k] != Delimiter(mode) && body[k] != '\\'
    ensures
      var s := body + [Delimiter(mode)];
      Classes(s, mode) == Fill(|s|, Quote) && EndMode(s, mode) == InCode
    decreases |body|
  {
    var s := body + [Delimiter(mode)];
    if body != "" {
      assert s[1..] == body[1..] + [Delimiter(mode)];
      QuotedBody(body[1..], mode);
      assert Fill(1, Quote) + Fill(|body|, Quote) == Fill(|s|, Quote);
    }
  }

  /**
   The three quotes; inside them a backslash protects the next character, and a doubled quote does not
   close.
   */
  lemma QuoteLaws(quote: char, body: string, c: char)
    requires quote == '\'' || quote == '"' || quote == '`'
    ensures (forall k :: 0 <= k < |body| ==> body[k] != quote && body[k] != '\\') ==>
      AllOf(Quote, [quote] + (body + [quote]))
    ensures AllOf(Quote, [quote, '\\', c, quote]) && AllOf(Quote, [quote, quote, quote, quote])
    ensures EndMode([quote, quote, quote], InCode) != InCode && EndMode([quote, '\\', quote], InCode) != InCode
  {
    var mode := if quote == '\'' then InSingle else if quote == '"' then InDouble else InBacktick;
    if forall k :: 0 <= k < |body| ==> body[k] != quote && body[k] != '\\' {
      QuotedBody(body, mode);
      var s := [quote] + (body + [quote]);
      assert s[1..] == body + [quote];
      assert Fill(1, Quote) + Fill(|body| + 1, Quote) == Fill(|s|, Quote);
    }
    Escapes(quote, mode, c);
  }

  /** Two dashes without white space behind them, and a lone slash, are code. */
  lemma CommentStarts(c: char)
    ensures Head("--" + [c], InCode) == if IsSpace(c) then Token(2, Comment, InLine) else Token(1, Code, InCode)
    ensures Head(['/', c], InCode) == if c == '*' then Token(2, Comment, InBlock) else Token(1, Code, InCode)
  {
  }

  lemma Escapes(quote: char, mode: Mode, c: char)
    requires Quoted(mode) && Delimiter(mode) == quote && Head([quote], InCode) == Token(1, Quote, mode)
    ensures AllOf(Quote, [quote, '\\', c, quote]) && AllOf(Quote, [quote, quote, quote, quote])
    ensures EndMode([quote, quote, quote], InCode) != InCode && EndMode([quote, '\\', quote], InCode) != InCode
  {
    var escaped, doubled := [quote, '\\', c, quote], [quote, quote, quote, quote];
    QuotedBody("", mode);
    assert escaped[1..] == ['\\', c, quote] && escaped[1..][2..] == [quote];
    assert doubled[1..] == [quote, quote, quote] && doubled[1..][2..] == [quote];
    assert [] + [quote] == [quote];
    assert Fill(1, Quote) + (Fill(2, Quote) + Fill(1, Quote)) == Fill(4, Quote);
    var open, held := [quote, quote, quote], [quote, '\\', quote];
    assert open[1..] == [quote, quote] && open[1..][2..] == [];
    assert held[1..] == ['\\', quote] && held[1..][2..] == [];
  }

  /** The code does not reject a quoted literal behind the terminator. */
  lemma LiteralAfterTerminatorAccepted(a: string, body: string)
    requires Terminated(a)
    requires forall k :: 0 <= k < |body| ==> body[k] != '\'' && body[k] != '\\'
    ensures Accepts(a + ";" + ("'" + body + "'"))
  {
    var t := "'" + body + "'";
    QuotedBody(body, InSingle);
    assert body + [Delimiter(InSingle)] == body + "'";
    assert t[1..] == body + "'";
    var ct := Classes(t, InCode);
    assert ct == Fill(1, Quote) + Classes(body + "'", InSingle);
    forall k | 0 <= k < |t| ensures !Substance(t, ct, k) {
      assert k > 0 ==> ct[k] == Classes(body + "'", InSingle)[k - 1];
    }
    TerminatorLaw(a, t);
  }
}
