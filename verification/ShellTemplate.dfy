/** Hook commands: quoting a value for the shell, expanding placeholders, and what a POSIX shell
    reads back (IEEE Std 1003.1-2017, Shell Command Language, sections 2.2, 2.3, 2.6 and 2.7). */
module ShellTemplate {
  import opened Text

  // ---- what the shell reads ----

  /** What stands just before an unquoted character. Opened follows a parenthesis, Redirect one of < and >,
      Target is what a file descriptor is duplicated from so far; Bare is a word so far without quotes or
      expansions, Mixed any other word. */
  datatype Prev = Start | Opened | Redirect | Target(text: string) | Dollar | Bare(text: string) | Mixed

  datatype Mode =
    | Unquoted(prev: Prev)
    | Escaped(prev: Prev)
    | Single
    | Double
    | DoubleDollar
    | DoubleEscaped(dollar: bool)
    | Comment
    | Backquote(quoted: bool)
    | BackEscaped(quoted: bool)
    | Param(quoted: bool)
    | Beyond

  /** An open parenthesis; a command substitution remembers whether it stands in double quotes. */
  datatype Frame = Paren | Subst(quoted: bool)

  datatype State = State(mode: Mode, open: seq<Frame>)

  const BEGIN := State(Unquoted(Start), [])

  /** Plain characters may have a meaning to the shell; Literal ones stand for themselves; Active ones
      keep theirs inside double quotes; Quote marks an opening quote, which makes a word even if empty.
      Tick is an unescaped backquote and Command a character of the text between two of them, which is
      read as a script of its own. Unknown comes after a construct this scanner does not follow. */
  datatype Piece =
    | Plain(c: char)
    | Literal(c: char)
    | Active(c: char)
    | Quote
    | Tick
    | Command(c: char)
    | Unknown(c: char)

  type Reading = (seq<Piece>, State)

  predicate IsDelimiter(c: char)
  {
    c == ' ' || c == '\t' || c == '\n' || c == ';' || c == '&' || c == '|' || c == '<' || c == '>' || c == '(' || c == ')'
  }

  predicate IsDigit(c: char) { '0' <= c <= '9' }

  predicate IsNameCharacter(c: char) { 'a' <= c <= 'z' || 'A' <= c <= 'Z' || IsDigit(c) || c == '_' }

  predicate IsSpecialParameter(c: char)
  {
    c == '@' || c == '*' || c == '#' || c == '?' || c == '-' || c == '$' || c == '!'
  }

  /** What may follow an unquoted dollar sign; anything else has an unspecified result. */
  predicate FollowsDollar(c: char) { IsNameCharacter(c) || IsSpecialParameter(c) || c == '(' || c == '{' }

  /** What may come next in the word after >& or <&: digits, or a lone minus sign, then a delimiter. */
  predicate FollowsTarget(text: string, c: char)
  {
    if text == "" then c == ' ' || c == '\t' || c == '-' || IsDigit(c)
    else IsDelimiter(c) || (IsDigit(c) && text[0] != '-')
  }

  predicate InSubstitution(open: seq<Frame>) { exists k :: 0 <= k < |open| && open[k].Subst? }

  /** Arithmetic, here-documents, process substitution, the patterns of a case inside a command
      substitution, and what the standard leaves unspecified after a dollar sign, >& and <&. A backslash
      is left to the next character, because a line may be continued anywhere. */
  predicate NotFollowed(prev: Prev, open: seq<Frame>, c: char)
  {
    || (prev == Dollar && c != '\\' && !FollowsDollar(c))
    || (prev.Target? && c != '\\' && !FollowsTarget(prev.text, c))
    || (prev == Opened && c == '(')
    || (prev == Redirect && (c == '<' || c == '('))
    || (prev == Bare("case") && IsDelimiter(c) && InSubstitution(open))
  }

  function StepDelimiter(prev: Prev, open: seq<Frame>, c: char): State
  {
    if c == '(' then State(Unquoted(Opened), open + [if prev == Dollar then Subst(false) else Paren])
    else if c == ')' && open != [] then
      var top := open[|open| - 1];
      State(if top == Paren then Unquoted(Start) else if top.quoted then Double else Unquoted(Mixed), open[..|open| - 1])
    else
      var next :=
        if c == '<' || c == '>' then Redirect
        else if (prev == Redirect && c == '&') || prev == Target("") then Target("")
        else Start;
      State(Unquoted(next), open)
  }

  function StepWord(prev: Prev, open: seq<Frame>, c: char): Reading
  {
    if c == '#' && (prev == Start || prev == Opened || prev == Redirect) then ([], State(Comment, open))
    else if c == '{' && prev == Dollar then ([Plain(c)], State(Param(false), open))
    else
      var next :=
        if c == '$' && prev != Dollar then Dollar
        else if c == '$' || prev == Dollar || prev == Mixed then Mixed
        else if prev.Target? then Target(prev.text + [c])
        else Bare((if prev.Bare? then prev.text else "") + [c]);
      ([Plain(c)], State(Unquoted(next), open))
  }

  function StepUnquoted(prev: Prev, open: seq<Frame>, c: char): Reading
  {
    if NotFollowed(prev, open, c) then ([Unknown(c)], State(Beyond, open))
    else if c == '\\' then ([], State(Escaped(prev), open))
    else if c == '\'' then ([Quote], State(Single, open))
    else if c == '"' then ([Quote], State(Double, open))
    else if c == '`' then ([Tick], State(Backquote(false), open))
    else if IsDelimiter(c) then ([Plain(c)], StepDelimiter(prev, open, c))
    else StepWord(prev, open, c)
  }

  function StepDouble(dollar: bool, open: seq<Frame>, c: char): Reading
  {
    if c == '"' then ([], State(Unquoted(Mixed), open))
    else if c == '\\' then ([], State(DoubleEscaped(dollar), open))
    else if c == '`' then ([Tick], State(Backquote(true), open))
    else if c == '$' then ([Active(c)], State(if dollar then Double else DoubleDollar, open))
    else if dollar && c == '(' then ([Active(c)], State(Unquoted(Opened), open + [Subst(true)]))
    else if dollar && c == '{' then ([Active(c)], State(Param(true), open))
    else if dollar && c == '[' then ([Unknown(c)], State(Beyond, open))
    else ([Literal(c)], State(Double, open))
  }

  /** An unquoted backslash was followed by c. */
  function StepQuoted(prev: Prev, open: seq<Frame>, c: char): Reading
  {
    if c == '\n' then ([], State(Unquoted(prev), open))
    else if prev == Dollar || prev.Target? then ([Unknown(c)], State(Beyond, open))
    else ([Literal(c)], State(Unquoted(Mixed), open))
  }

  /** A backslash inside double quotes or backquotes was followed by c. */
  function StepEscaped(mode: Mode, open: seq<Frame>, c: char): Reading
    requires mode.DoubleEscaped? || mode.BackEscaped?
  {
    if mode.DoubleEscaped? && c == '\n' then ([], State(if mode.dollar then DoubleDollar else Double, open))
    else if mode.DoubleEscaped? then
      (if c == '$' || c == '`' || c == '"' || c == '\\' then [Literal(c)] else [Literal('\\'), Literal(c)], State(Double, open))
    else if c == '"' && mode.quoted then ([Unknown(c)], State(Beyond, open))
    else
      (if c == '$' || c == '`' || c == '\\' then [Command(c)] else [Command('\\'), Command(c)], State(Backquote(mode.quoted), open))
  }

  function Step(st: State, c: char): Reading
  {
    var open := st.open;
    match st.mode
    case Unquoted(prev) => StepUnquoted(prev, open, c)
    case Escaped(prev) => StepQuoted(prev, open, c)
    case Single => if c == '\'' then ([], State(Unquoted(Mixed), open)) else ([Literal(c)], st)
    case Double => StepDouble(false, open, c)
    case DoubleDollar => StepDouble(true, open, c)
    case DoubleEscaped(_) => StepEscaped(st.mode, open, c)
    case Comment => if c == '\n' then ([Plain(c)], State(Unquoted(Start), open)) else ([], st)
    case Backquote(quoted) =>
      if c == '`' then ([Tick], State(if quoted then Double else Unquoted(Mixed), open))
      else if c == '\\' then ([], State(BackEscaped(quoted), open))
      else ([Command(c)], st)
    case BackEscaped(_) => StepEscaped(st.mode, open, c)
    case Param(quoted) =>
      if c == '}' then ([Active(c)], State(if quoted then Double else Unquoted(Mixed), open))
      else if IsNameCharacter(c) then ([Active(c)], st)
      else ([Unknown(c)], State(Beyond, open))
    case Beyond => ([Unknown(c)], st)
  }

  /** What the shell makes of s, and the state it is left in. */
  function Pieces(st: State, s: string): seq<Piece>
    decreases |s|
  {
    if s == "" then [] else Step(st, s[0]).0 + Pieces(Step(st, s[0]).1, s[1..])
  }

  function Ends(st: State, s: string): State
    decreases |s|
  {
    if s == "" then st else Ends(Step(st, s[0]).1, s[1..])
  }

  lemma {:induction false} ScanConcat(st: State, a: string, b: string)
    ensures Pieces(st, a + b) == Pieces(st, a) + Pieces(Ends(st, a), b)
    ensures Ends(st, a + b) == Ends(Ends(st, a), b)
    decreases |a|
  {
    if a == "" {
      assert a + b == b;
    } else {
      assert (a + b)[1..] == a[1..] + b;
      ScanConcat(Step(st, a[0]).1, a[1..], b);
    }
  }

  lemma ScanOne(st: State, c: char)
    ensures Pieces(st, [c]) == Step(st, c).0 && Ends(st, [c]) == Step(st, c).1
  {
    assert [c][1..] == "";
    assert Step(st, c).0 + [] == Step(st, c).0;
  }

  // ---- quoting ----

  const QUOTE_IN_QUOTES := "'\\''"

  function ShellQuote(s: string): string
  {
    "'" + ReplaceAll(s, "'", QUOTE_IN_QUOTES) + "'"
  }

  /** A value as the shell should read it: one word, every character literal. */
  function Body(v: string): seq<Piece>
  {
    if v == "" then []
    else (if v[0] == '\'' then [Literal('\''), Quote] else [Literal(v[0])]) + Body(v[1..])
  }

  function Word(v: string): seq<Piece> { [Quote] + Body(v) }

  /** The characters of a word made of literal pieces. */
  function Meaning(ps: seq<Piece>): string
  {
    if ps == [] then "" else (if ps[0].Literal? then [ps[0].c] else "") + Meaning(ps[1..])
  }

  lemma {:induction false} MeaningConcat(a: seq<Piece>, b: seq<Piece>)
    ensures Meaning(a + b) == Meaning(a) + Meaning(b)
  {
    if a == [] {
      assert a + b == b;
      assert "" + Meaning(b) == Meaning(b);
    } else {
      var tail := a[1..];
      MeaningConcat(tail, b);
      assert (a + b)[1..] == tail + b && (a + b)[0] == a[0];
      Regroup(if a[0].Literal? then [a[0].c] else "", Meaning(tail), Meaning(b));
    }
  }

  lemma Regroup(x: string, y: string, z: string)
    ensures x + (y + z) == (x + y) + z
  {
  }

  lemma MeaningOfQuote()
    ensures Meaning([Literal('\''), Quote]) == "'"
    ensures Meaning([Quote]) == ""
  {
    assert [Literal('\''), Quote][1..] == [Quote] && [Quote][1..] == [];
  }

  lemma {:induction false} BodyMeansValue(v: string)
    ensures Meaning(Body(v)) == v
    ensures forall p :: p in Body(v) ==> p.Literal? || p.Quote?
  {
    if v != "" {
      BodyMeansValue(v[1..]);
      MeaningOfQuote();
      assert v == [v[0]] + v[1..];
      MeaningConcat(if v[0] == '\'' then [Literal('\''), Quote] else [Literal(v[0])], Body(v[1..]));
      assert [Literal(v[0])][1..] == [];
    }
  }

  /** Outside quotes and not right after a dollar sign, nor in the word after >& or <&. */
  predicate TakesValue(st: State) { st.mode.Unquoted? && st.mode.prev != Dollar && !st.mode.prev.Target? }

  function AfterWord(open: seq<Frame>): State { State(Unquoted(Mixed), open) }

  lemma ScanQuoteInQuotes(open: seq<Frame>)
    ensures Pieces(State(Single, open), QUOTE_IN_QUOTES) == [Literal('\''), Quote]
    ensures Ends(State(Single, open), QUOTE_IN_QUOTES) == State(Single, open)
  {
    var single, out, escaped := State(Single, open), AfterWord(open), State(Escaped(Mixed), open);
    ScanOne(single, '\'');
    ScanOne(out, '\\');
    ScanOne(escaped, '\'');
    ScanOne(out, '\'');
    ScanConcat(escaped, "'", "'");
    ScanConcat(out, "\\", "''");
    ScanConcat(single, "'", "\\''");
    assert "'" + "'" == "''" && "\\" + "''" == "\\''" && "'" + "\\''" == QUOTE_IN_QUOTES;
  }

  lemma {:induction false} ScanBody(open: seq<Frame>, v: string)
    ensures Pieces(State(Single, open), ReplaceAll(v, "'", QUOTE_IN_QUOTES)) == Body(v)
    ensures Ends(State(Single, open), ReplaceAll(v, "'", QUOTE_IN_QUOTES)) == State(Single, open)
  {
    if v != "" {
      ReplaceCharacter(v, '\'', QUOTE_IN_QUOTES);
      ScanBody(open, v[1..]);
      var rest := ReplaceAll(v[1..], "'", QUOTE_IN_QUOTES);
      if v[0] == '\'' {
        ScanQuoteInQuotes(open);
        ScanConcat(State(Single, open), QUOTE_IN_QUOTES, rest);
      } else {
        assert ([v[0]] + rest)[1..] == rest;
      }
    }
  }

  lemma ScanQuoted(st: State, v: string)
    requires TakesValue(st)
    ensures Pieces(st, ShellQuote(v)) == Word(v) && Ends(st, ShellQuote(v)) == AfterWord(st.open)
  {
    var body, single := ReplaceAll(v, "'", QUOTE_IN_QUOTES), State(Single, st.open);
    assert Step(st, '\'') == ([Quote], single);
    ScanBody(st.open, v);
    ScanOne(single, '\'');
    ScanConcat(single, body, "'");
    assert Body(v) + [] == Body(v);
    var s := body + "'";
    assert ShellQuote(v) == ['\''] + s && (['\''] + s)[1..] == s;
  }

  lemma WordMeansValue(v: string)
    ensures Meaning(Word(v)) == v
    ensures forall p :: p in Word(v) ==> p.Literal? || p.Quote?
  {
    BodyMeansValue(v);
    MeaningOfQuote();
    MeaningConcat([Quote], Body(v));
  }

  /** The shell reads a quoted value back as one literal word with exactly the value's characters,
      and is outside quotes again after it. */
  lemma QuoteRoundTrip(st: State, v: string)
    requires TakesValue(st)
    ensures Pieces(st, ShellQuote(v)) == Word(v) && Ends(st, ShellQuote(v)) == AfterWord(st.open)
    ensures Meaning(Word(v)) == v
    ensures forall p :: p in Word(v) ==> p.Literal? || p.Quote?
  {
    ScanQuoted(st, v);
    WordMeansValue(v);
  }

  // ---- expansion ----

  const NAMES: seq<string> :=
    ["PlanName", "Hostname", "Status", "Duration", "BytesAdded", "FilesNew", "FilesChanged",
     "SnapshotID", "Error", "StartedAt", "FinishedAt"]

  type Slot = i: int | 0 <= i < 11

  type Values = s: seq<string> | |s| == 11 witness ["", "", "", "", "", "", "", "", "", "", ""]

  function Key(i: Slot): string
  {
    "{{." + NAMES[i] + "}}"
  }

  predicate StartsWith(t: string, k: string) { k <= t }

  /** The first placeholder, in the given order of preference, that t starts with; -1 for none. */
  function Match(order: seq<Slot>, t: string): (i: int)
    ensures i >= 0 ==> i < 11 && i in order && StartsWith(t, Key(i))
    ensures i < 0 ==> forall k :: k in order ==> !StartsWith(t, Key(k))
  {
    if order == [] then -1
    else if StartsWith(t, Key(order[0])) then order[0]
    else Match(order[1..], t)
  }

  /** One pass from left to right; replaced text is not looked at again. */
  function ExpandBy(order: seq<Slot>, t: string, vs: Values): string
    decreases |t|
  {
    if t == "" then ""
    else
      var i := Match(order, t);
      if i >= 0 then ShellQuote(vs[i]) + ExpandBy(order, t[|Key(i)|..], vs)
      else [t[0]] + ExpandBy(order, t[1..], vs)
  }

  const ORDER: seq<Slot> := [0, 1, 2, 3, 4, 5, 6, 7, 8, 9, 10]

  function Expand(t: string, vs: Values): string { ExpandBy(ORDER, t, vs) }

  // ---- the placeholders cannot be confused ----

  predicate NoBrace(s: string) { forall k :: 0 <= k < |s| ==> s[k] != '{' && s[k] != '}' }

  lemma NamesAreLetters(i: Slot)
    ensures NoBrace(NAMES[i]) && NAMES[i] != ""
  {
  }

  lemma NamesDiffer(i: Slot, j: Slot)
    requires NAMES[i] == NAMES[j]
    ensures i == j
  {
    assert |NAMES[i]| == |NAMES[j]| && NAMES[i][0] == NAMES[j][0];
  }

  lemma KeyShape(i: Slot, t: string)
    requires StartsWith(t, Key(i))
    ensures var n := |NAMES[i]|;
      && |Key(i)| == n + 5 && t[0] == t[1] == '{' && t[2] == '.'
      && t[3..n + 3] == NAMES[i] && t[n + 3] == t[n + 4] == '}'
      && (forall k :: 3 <= k < n + 3 ==> t[k] != '{' && t[k] != '}')
  {
    NamesAreLetters(i);
    var n := |NAMES[i]|;
    assert t[..n + 5] == Key(i);
    assert Key(i)[3..n + 3] == NAMES[i];
    forall k | 3 <= k < n + 3 ensures t[k] != '{' && t[k] != '}' {
      assert t[k] == NAMES[i][k - 3];
    }
  }

  /** No text starts with two placeholders. */
  lemma PrefixFree(i: Slot, j: Slot, t: string)
    requires StartsWith(t, Key(i)) && StartsWith(t, Key(j))
    ensures i == j
  {
    KeyShape(i, t);
    KeyShape(j, t);
    if |NAMES[i]| == |NAMES[j]| {
      NamesDiffer(i, j);
    }
  }

  /** No placeholder starts strictly inside another. */
  lemma NoOverlap(i: Slot, j: Slot, t: string, d: int)
    requires StartsWith(t, Key(i)) && 0 < d < |Key(i)|
    ensures !StartsWith(t[d..], Key(j))
  {
    KeyShape(i, t);
    if StartsWith(t[d..], Key(j)) {
      KeyShape(j, t[d..]);
    }
  }

  /** Whichever order the replacements are listed in, the expansion is the same. */
  lemma {:induction false} OrderIrrelevant(a: seq<Slot>, b: seq<Slot>, t: string, vs: Values)
    requires forall k :: k in a <==> k in b
    ensures ExpandBy(a, t, vs) == ExpandBy(b, t, vs)
    decreases |t|
  {
    if t != "" {
      var i, j := Match(a, t), Match(b, t);
      if i >= 0 && j >= 0 { PrefixFree(i, j, t); }
      assert i == j || (i < 0 && j < 0);
      OrderIrrelevant(a, b, if i >= 0 then t[|Key(i)|..] else t[1..], vs);
    }
  }

  // ---- what a placeholder becomes ----

  /** The placeholders as authors write them. */
  lemma PlaceholderTexts()
    ensures Key(0) == "{{.PlanName}}" && Key(1) == "{{.Hostname}}" && Key(2) == "{{.Status}}"
    ensures Key(3) == "{{.Duration}}" && Key(4) == "{{.BytesAdded}}" && Key(5) == "{{.FilesNew}}"
  {
  }

  lemma MorePlaceholderTexts()
    ensures Key(6) == "{{.FilesChanged}}" && Key(7) == "{{.SnapshotID}}" && Key(8) == "{{.Error}}"
    ensures Key(9) == "{{.StartedAt}}" && Key(10) == "{{.FinishedAt}}"
  {
  }

  /** Every placeholder is replaced by its own value, quoted, wherever it stands. */
  lemma PlaceholderReplaced(i: Slot, t: string, vs: Values)
    ensures Expand(Key(i) + t, vs) == ShellQuote(vs[i]) + Expand(t, vs)
  {
    var s := Key(i) + t;
    assert Key(i) <= s && s[|Key(i)|..] == t;
    assert ORDER[i] == i;
    var j := Match(ORDER, s);
    if j >= 0 { PrefixFree(i, j, s); }
  }

  /** Any other character stays as it is. */
  lemma OtherTextKept(t: string, vs: Values)
    requires t != "" && forall k: Slot :: !(Key(k) <= t)
    ensures Expand(t, vs) == [t[0]] + Expand(t[1..], vs)
  {
    assert Match(ORDER, t) < 0;
  }

  lemma NothingToExpand(vs: Values)
    ensures Expand("", vs) == ""
  {
  }

  // ---- the round trip in context ----

  function Literals(v: string): seq<Piece> { seq(|v|, i requires 0 <= i < |v| => Literal(v[i])) }

  function Commands(v: string): seq<Piece> { seq(|v|, i requires 0 <= i < |v| => Command(v[i])) }

  /** What an author means by a placeholder: outside quotes one literal word; in a comment nothing; between
      backquotes the quoted value as part of the inner script; elsewhere the value's characters. */
  function Intended(st: State, v: string): seq<Piece>
  {
    if TakesValue(st) then Word(v)
    else match st.mode
      case Comment => []
      case Backquote(_) => Commands(ShellQuote(v))
      case BackEscaped(_) => Commands(ShellQuote(v))
      case Beyond => Pieces(st, ShellQuote(v))
      case _ => Literals(v)
  }

  /** The state the rest of the template is meant to be read in. */
  function After(st: State): State
  {
    match st.mode
    case Unquoted(_) => AfterWord(st.open)
    case Escaped(_) => AfterWord(st.open)
    case DoubleDollar => State(Double, st.open)
    case DoubleEscaped(_) => State(Double, st.open)
    case BackEscaped(quoted) => State(Backquote(quoted), st.open)
    case _ => st
  }

  /** A template as it is meant: each placeholder as intended, the rest as the shell reads it. */
  function Denote(st: State, t: string, vs: Values): seq<Piece>
    decreases |t|
  {
    if t == "" then []
    else
      var i := Match(ORDER, t);
      if i >= 0 then Intended(st, vs[i]) + Denote(After(st), t[|Key(i)|..], vs)
      else Step(st, t[0]).0 + Denote(Step(st, t[0]).1, t[1..], vs)
  }

  function Leaves(st: State, t: string): State
    decreases |t|
  {
    if t == "" then st
    else
      var i := Match(ORDER, t);
      if i >= 0 then Leaves(After(st), t[|Key(i)|..]) else Leaves(Step(st, t[0]).1, t[1..])
  }

  predicate ReadsAsMeant(t: string, vs: Values)
  {
    Pieces(BEGIN, Expand(t, vs)) == Denote(BEGIN, t, vs) && Ends(BEGIN, Expand(t, vs)) == Leaves(BEGIN, t)
  }

  /** Every placeholder is reached outside quotes, comments, backquotes and braces, not right after a
      backslash or a dollar sign, and not in the word after >& or <&. */
  predicate PlaceholdersUnquoted(st: State, t: string)
    decreases |t|
  {
    if t == "" then true
    else
      var i := Match(ORDER, t);
      if i >= 0 then TakesValue(st) && PlaceholdersUnquoted(After(st), t[|Key(i)|..])
      else PlaceholdersUnquoted(Step(st, t[0]).1, t[1..])
  }

  /** No placeholder comes after a construct the scanner does not follow. */
  predicate Tracked(st: State, t: string)
    decreases |t|
  {
    if t == "" then true
    else
      var i := Match(ORDER, t);
      if i >= 0 then st.mode != Beyond && Tracked(After(st), t[|Key(i)|..])
      else Tracked(Step(st, t[0]).1, t[1..])
  }

  lemma {:induction false} ExpansionMeansTemplate(st: State, t: string, vs: Values)
    requires PlaceholdersUnquoted(st, t)
    ensures Pieces(st, Expand(t, vs)) == Denote(st, t, vs)
    ensures Ends(st, Expand(t, vs)) == Leaves(st, t)
    decreases |t|
  {
    if t != "" {
      var i := Match(ORDER, t);
      if i >= 0 {
        var rest := t[|Key(i)|..];
        ExpansionMeansTemplate(After(st), rest, vs);
        QuoteRoundTrip(st, vs[i]);
        ScanConcat(st, ShellQuote(vs[i]), Expand(rest, vs));
      } else {
        ExpansionMeansTemplate(Step(st, t[0]).1, t[1..], vs);
        assert ([t[0]] + Expand(t[1..], vs))[1..] == Expand(t[1..], vs);
      }
    }
  }

  // ---- a quoted placeholder lets a value act on the shell ----

  predicate IsLoose(p: Piece) { p.Plain? || p.Unknown? }

  /** How many characters the shell reads as its own syntax, or in no specified way. */
  function Loose(ps: seq<Piece>): nat
  {
    if ps == [] then 0 else (if IsLoose(ps[0]) then 1 else 0) + Loose(ps[1..])
  }

  lemma {:induction false} LooseConcat(a: seq<Piece>, b: seq<Piece>)
    ensures Loose(a + b) == Loose(a) + Loose(b)
  {
    if a == [] {
      assert a + b == b;
    } else {
      LooseConcat(a[1..], b);
      assert (a + b)[1..] == a[1..] + b;
    }
  }

  lemma {:induction false} NoneLoose(ps: seq<Piece>)
    requires forall p :: p in ps ==> !IsLoose(p)
    ensures Loose(ps) == 0
  {
    if ps != [] { NoneLoose(ps[1..]); }
  }

  lemma StepLoose(st: State, c: char)
    ensures Loose(Step(st, c).0) <= 1
  {
    var ps := Step(st, c).0;
    assert |ps| == 0 || |ps| == 1 || (!IsLoose(ps[0]) && ps[1..] == [ps[1]] && !IsLoose(ps[1]));
    if |ps| == 1 { assert ps[1..] == []; }
    if |ps| == 2 { NoneLoose(ps); }
  }

  lemma IntendedIsTight(st: State, v: string)
    requires st.mode != Beyond
    ensures Loose(Intended(st, v)) == 0
  {
    BodyMeansValue(v);
    NoneLoose(Intended(st, v));
  }

  /** A tracked template is meant to have no more syntax than it has characters, whatever the values. */
  lemma {:induction false} DenoteIsTight(st: State, t: string, vs: Values)
    requires Tracked(st, t)
    ensures Loose(Denote(st, t, vs)) <= |t|
    decreases |t|
  {
    if t != "" {
      var i := Match(ORDER, t);
      if i >= 0 {
        var rest := t[|Key(i)|..];
        DenoteIsTight(After(st), rest, vs);
        IntendedIsTight(st, vs[i]);
        LooseConcat(Intended(st, vs[i]), Denote(After(st), rest, vs));
      } else {
        var (head, next) := Step(st, t[0]);
        DenoteIsTight(next, t[1..], vs);
        StepLoose(st, t[0]);
        LooseConcat(head, Denote(next, t[1..], vs));
      }
    }
  }

  function LooseIn(st: State, s: string): nat { Loose(Pieces(st, s)) }

  lemma LooseInConcat(st: State, a: string, b: string)
    ensures LooseIn(st, a + b) == LooseIn(st, a) + LooseIn(Ends(st, a), b)
    ensures Ends(st, a + b) == Ends(Ends(st, a), b)
  {
    ScanConcat(st, a, b);
    LooseConcat(Pieces(st, a), Pieces(Ends(st, a), b));
  }

  function Lines(n: nat): string { if n == 0 then "" else "\n" + Lines(n - 1) }

  /** Line ends that separate commands, after each way out of a quote. */
  function Hostile(n: nat): string
  {
    Lines(n) + ("\"" + (Lines(n) + ("`" + (Lines(n) + ("\"" + Lines(n))))))
  }

  predicate LetsLinesThrough(st: State)
  {
    st.mode == Unquoted(Mixed) || st.mode == Unquoted(Start) || st.mode == Comment || st.mode == Beyond
  }

  predicate KeepsLines(st: State) { st.mode.Double? || st.mode.Backquote? }

  lemma LooseInLine(st: State, s: string)
    ensures LooseIn(st, "\n" + s) == Loose(Step(st, '\n').0) + LooseIn(Step(st, '\n').1, s)
  {
    assert ("\n" + s)[1..] == s;
    LooseConcat(Step(st, '\n').0, Pieces(Step(st, '\n').1, s));
  }

  lemma LineGetsThrough(st: State)
    requires LetsLinesThrough(st)
    ensures LetsLinesThrough(Step(st, '\n').1) && Loose(Step(st, '\n').0) == 1
  {
    if st.mode.Unquoted? {
      assert !NotFollowed(st.mode.prev, st.open, '\n') && IsDelimiter('\n');
      assert Step(st, '\n') == ([Plain('\n')], State(Unquoted(Start), st.open));
    }
    var head := Step(st, '\n').0;
    assert |head| == 1 && head[1..] == [] && IsLoose(head[0]);
  }

  lemma {:induction false} LinesGetThrough(st: State, n: nat)
    requires LetsLinesThrough(st)
    ensures LooseIn(st, Lines(n)) == n
    decreases n
  {
    if n > 0 {
      LooseInLine(st, Lines(n - 1));
      LineGetsThrough(st);
      LinesGetThrough(Step(st, '\n').1, n - 1);
    }
  }

  lemma {:induction false} LinesAreKept(st: State, n: nat)
    requires KeepsLines(st)
    ensures Ends(st, Lines(n)) == st
    decreases n
  {
    if n > 0 {
      assert ("\n" + Lines(n - 1))[1..] == Lines(n - 1);
      LinesAreKept(st, n - 1);
    }
  }

  /** Kept lines and one more character change the state by that character alone. */
  lemma PastLines(st: State, n: nat, c: char, s: string)
    requires KeepsLines(st)
    ensures LooseIn(st, Lines(n) + ([c] + s)) >= LooseIn(Step(st, c).1, s)
  {
    LinesAreKept(st, n);
    ScanOne(st, c);
    LooseInConcat(st, Lines(n), [c] + s);
    LooseInConcat(st, [c], s);
  }

  lemma LinesFirst(st: State, n: nat, s: string)
    requires LetsLinesThrough(st)
    ensures LooseIn(st, Lines(n) + s) >= n
  {
    LinesGetThrough(st, n);
    LooseInConcat(st, Lines(n), s);
  }

  /** In double quotes the value's own double quote ends them. */
  lemma DoubleLetsOut(st: State, n: nat, s: string)
    requires st.mode == Double
    ensures LooseIn(st, Lines(n) + ("\"" + (Lines(n) + s))) >= n
  {
    PastLines(st, n, '"', Lines(n) + s);
    LinesFirst(Step(st, '"').1, n, s);
  }

  /** Between backquotes the value's own backquote ends the substitution. */
  lemma BackquoteLetsOut(st: State, n: nat)
    requires st.mode.Backquote?
    ensures LooseIn(st, Hostile(n)) >= n
  {
    var tail := Lines(n) + ("\"" + Lines(n));
    assert Lines(n) + "" == Lines(n);
    PastLines(st, n, '"', Lines(n) + ("`" + tail));
    PastLines(st, n, '`', tail);
    var out := Step(st, '`').1;
    if out.mode == Double { DoubleLetsOut(out, n, ""); } else { LinesFirst(out, n, "\"" + Lines(n)); }
  }

  lemma HostileGetsThrough(st: State, n: nat)
    requires LetsLinesThrough(st) || KeepsLines(st)
    ensures LooseIn(st, Hostile(n)) >= n
  {
    if LetsLinesThrough(st) {
      LinesFirst(st, n, "\"" + (Lines(n) + ("`" + (Lines(n) + ("\"" + Lines(n))))));
    } else if st.mode == Double {
      DoubleLetsOut(st, n, "`" + (Lines(n) + ("\"" + Lines(n))));
    } else {
      BackquoteLetsOut(st, n);
    }
  }

  lemma {:induction false} LinesHaveNoQuote(n: nat)
    ensures '\'' !in Lines(n)
  {
    if n > 0 { LinesHaveNoQuote(n - 1); }
  }

  lemma {:induction false} QuoteFree(v: string)
    requires '\'' !in v
    ensures ReplaceAll(v, "'", QUOTE_IN_QUOTES) == v
  {
    if v != "" {
      ReplaceCharacter(v, '\'', QUOTE_IN_QUOTES);
      QuoteFree(v[1..]);
      assert v == [v[0]] + v[1..];
    }
  }

  lemma HostileActs(st: State, n: nat, rest: string)
    requires !TakesValue(st)
    ensures LooseIn(st, ShellQuote(Hostile(n)) + rest) >= n
  {
    LinesHaveNoQuote(n);
    QuoteFree(Hostile(n));
    var s := Hostile(n) + ("'" + rest);
    assert ShellQuote(Hostile(n)) + rest == "'" + s;
    ScanOne(st, '\'');
    LooseInConcat(st, "'", s);
    var inside := Step(st, '\'').1;
    HostileGetsThrough(inside, n);
    LooseInConcat(inside, Hostile(n), "'" + rest);
  }

  function Everywhere(v: string): Values { seq(11, _ => v) }

  lemma {:induction false} HostileReachesShell(st: State, t: string, n: nat)
    requires !PlaceholdersUnquoted(st, t)
    ensures LooseIn(st, Expand(t, Everywhere(Hostile(n)))) >= n
    decreases |t|
  {
    var vs := Everywhere(Hostile(n));
    var i := Match(ORDER, t);
    if i < 0 {
      var rest := Expand(t[1..], vs);
      HostileReachesShell(Step(st, t[0]).1, t[1..], n);
      ScanOne(st, t[0]);
      LooseInConcat(st, [t[0]], rest);
    } else {
      var rest := Expand(t[|Key(i)|..], vs);
      if TakesValue(st) {
        HostileReachesShell(After(st), t[|Key(i)|..], n);
        QuoteRoundTrip(st, vs[i]);
        LooseInConcat(st, ShellQuote(vs[i]), rest);
      } else {
        HostileActs(st, n, rest);
      }
    }
  }

  /** With a placeholder anywhere else, some values make the shell read more syntax than the template has
      characters: characters of a value act on the shell. */
  lemma QuotedPlaceholderBreaks(t: string)
    requires Tracked(BEGIN, t) && !PlaceholdersUnquoted(BEGIN, t)
    ensures var vs := Everywhere(Hostile(|t| + 1));
      Loose(Pieces(BEGIN, Expand(t, vs))) > |t| >= Loose(Denote(BEGIN, t, vs))
  {
    HostileReachesShell(BEGIN, t, |t| + 1);
    DenoteIsTight(BEGIN, t, Everywhere(Hostile(|t| + 1)));
  }

  /** A tracked template reads as it is meant for all values exactly when its placeholders are unquoted. */
  lemma TemplateIsSafeExactly(t: string)
    ensures PlaceholdersUnquoted(BEGIN, t) ==> forall vs: Values :: ReadsAsMeant(t, vs)
    ensures Tracked(BEGIN, t) && (forall vs: Values :: ReadsAsMeant(t, vs)) ==> PlaceholdersUnquoted(BEGIN, t)
  {
    if PlaceholdersUnquoted(BEGIN, t) {
      forall vs: Values ensures ReadsAsMeant(t, vs) { ExpansionMeansTemplate(BEGIN, t, vs); }
    } else if Tracked(BEGIN, t) {
      QuotedPlaceholderBreaks(t);
      assert !ReadsAsMeant(t, Everywhere(Hostile(|t| + 1)));
    }
  }
}
