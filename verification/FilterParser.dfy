/** The filter expressions of rules (rule_engine/mqtt_rule_parser.c): a two-stack operator precedence parser
    in which every comparison binds tighter than `&&` and `||`, and these two share one left-grouping level.

    `Stacks`, `Take` and `Parse` are what the parser does with a list of tokens.  A `Form` is an expression
    written with some choice of parentheses; the reference is its tree. */
module FilterParser {
  import opened Wrappers

  datatype Op = Eq | Gt | Gte | Lt | Lte | And | Or

  datatype Token = Operand(text: string) | Binary(op: Op) | Left | Right

  /** Whether an operand names a field or is a constant depends on its text only. */
  datatype Expr = Leaf(text: string) | Node(op: Op, left: Expr, right: Expr)

  /** An entry of the operator stack: an open parenthesis, or an operator whose operands are not attached. */
  datatype Entry = Open | Pending(op: Op)

  datatype Stacks = Stacks(operands: seq<Expr>, operators: seq<Entry>)

  const PARENTHESIS: nat := 1
  const END: nat := 0

  function Priority(op: Op): nat {
    if op == And || op == Or then 2 else 3
  }

  function EntryPriority(e: Entry): nat {
    if e.Open? then PARENTHESIS else Priority(e.op)
  }

  /** The priority on top of the operator stack. */
  function Top(s: Stacks): nat {
    if s.operators == [] then 0 else EntryPriority(s.operators[|s.operators| - 1])
  }

  function Push(s: Stacks, e: Expr): Stacks {
    s.(operands := s.operands + [e])
  }

  function PushOp(s: Stacks, e: Entry): Stacks {
    s.(operators := s.operators + [e])
  }

  /** Attaches the two topmost operands to the topmost operator. */
  function Combine(s: Stacks): Stacks
    requires |s.operands| >= 2 && s.operators != [] && s.operators[|s.operators| - 1].Pending?
  {
    var n, m := |s.operands|, |s.operators|;
    Stacks(s.operands[..n - 2] + [Node(s.operators[m - 1].op, s.operands[n - 2], s.operands[n - 1])], s.operators[..m - 1])
  }

  /** The inner loop, for an incoming priority p.  None where an operator lacks operands. */
  function Reduce(s: Stacks, p: nat): Option<Stacks>
    decreases |s.operators|
  {
    var m := |s.operators|;
    if m == 0 || p > Top(s) then Some(s)
    else if s.operators[m - 1].Open? then Some(s.(operators := s.operators[..m - 1]))
    else if |s.operands| < 2 then None
    else Reduce(Combine(s), p)
  }

  function Take(s: Stacks, t: Token): Option<Stacks> {
    match t
    case Operand(text) => Some(Push(s, Leaf(text)))
    case Left => Some(PushOp(s, Open))
    case Right => Reduce(s, PARENTHESIS)
    case Binary(op) =>
      var r := Reduce(s, Priority(op));
      if r.None? then None else Some(PushOp(r.value, Pending(op)))
  }

  function Run(s: Stacks, ts: seq<Token>): Option<Stacks>
    decreases |ts|
  {
    if ts == [] then Some(s)
    else
      var r := Take(s, ts[0]);
      if r.None? then None else Run(r.value, ts[1..])
  }

  /** What is left on the operand stack at the end of the text. */
  function Result(s: Option<Stacks>): Option<Expr> {
    if s.None? then None
    else
      var r := Reduce(s.value, END);
      if r.Some? && |r.value.operands| == 1 then Some(r.value.operands[0]) else None
  }

  function Parse(ts: seq<Token>): Option<Expr> {
    Result(Run(Stacks([], []), ts))
  }

  // ---------- expressions as they are written ----------

  datatype Form = Atom(text: string) | Infix(op: Op, left: Form, right: Form) | Paren(inner: Form)

  function Tree(f: Form): Expr {
    match f
    case Atom(text) => Leaf(text)
    case Infix(op, l, r) => Node(op, Tree(l), Tree(r))
    case Paren(g) => Tree(g)
  }

  function Tokens(f: Form): (ts: seq<Token>)
    ensures ts != []
  {
    match f
    case Atom(text) => [Operand(text)]
    case Infix(op, l, r) => Tokens(l) + ([Binary(op)] + Tokens(r))
    case Paren(g) => [Left] + (Tokens(g) + [Right])
  }

  function Level(f: Form): nat {
    if f.Infix? then Priority(f.op) else 4
  }

  /** Parentheses stand wherever priority or left grouping needs them; there may be more. */
  predicate Bracketed(f: Form) {
    match f
    case Atom(_) => true
    case Infix(op, l, r) => Bracketed(l) && Bracketed(r) && Level(l) >= Priority(op) && Level(r) > Priority(op)
    case Paren(g) => Bracketed(g)
  }

  // ---------- well bracketed text is read as its tree ----------

  lemma {:induction false} RunAppend(s: Stacks, a: seq<Token>, b: seq<Token>)
    ensures Run(s, a + b) == if Run(s, a).None? then None else Run(Run(s, a).value, b)
    decreases |a|
  {
    if a == [] {
      assert a + b == b;
    } else {
      assert (a + b)[1..] == a[1..] + b;
      if Take(s, a[0]).Some? {
        RunAppend(Take(s, a[0]).value, a[1..], b);
      }
    }
  }

  lemma RunOne(s: Stacks, t: Token, ts: seq<Token>)
    ensures Run(s, [t] + ts) == if Take(s, t).None? then None else Run(Take(s, t).value, ts)
  {
    assert ([t] + ts)[1..] == ts;
  }

  /** Having read f is as good as having its tree on the operand stack, for every priority that may come next. */
  ghost predicate ReadAs(s: Stacks, f: Form, r: Option<Stacks>) {
    r.Some? && forall p: nat :: p <= Level(f) ==> Reduce(r.value, p) == Reduce(Push(s, Tree(f)), p)
  }

  lemma CloseParen(s: Stacks, e: Expr)
    ensures Reduce(Push(PushOp(s, Open), e), PARENTHESIS) == Some(Push(s, e))
  {
    assert PushOp(s, Open).operators[..|s.operators|] == s.operators;
  }

  lemma CombinePushed(s: Stacks, op: Op, l: Expr, r: Expr, p: nat)
    requires p <= Priority(op)
    ensures Reduce(Push(PushOp(Push(s, l), Pending(op)), r), p) == Reduce(Push(s, Node(op, l, r)), p)
  {
    var t, n := Push(PushOp(Push(s, l), Pending(op)), r), |s.operands|;
    assert t.operands[..n] == s.operands && t.operands[n] == l && t.operands[n + 1] == r;
    assert t.operators[..|s.operators|] == s.operators;
    assert Combine(t) == Push(s, Node(op, l, r));
  }

  lemma ReadInfix(s: Stacks, op: Op, l: Form, r: Form, s1: Option<Stacks>, s2: Option<Stacks>)
    requires Level(l) >= Priority(op) && Level(r) > Priority(op) && Top(s) < Priority(op)
    requires ReadAs(s, l, s1) && ReadAs(PushOp(Push(s, Tree(l)), Pending(op)), r, s2)
    ensures Take(s1.value, Binary(op)) == Some(PushOp(Push(s, Tree(l)), Pending(op)))
    ensures ReadAs(s, Infix(op, l, r), s2)
  {
    forall p: nat | p <= Priority(op) ensures Reduce(s2.value, p) == Reduce(Push(s, Node(op, Tree(l), Tree(r))), p) {
      CombinePushed(s, op, Tree(l), Tree(r), p);
    }
  }

  lemma {:induction false} ReadForm(s: Stacks, f: Form)
    requires Bracketed(f) && Top(s) < Level(f)
    ensures ReadAs(s, f, Run(s, Tokens(f)))
    decreases f
  {
    match f
    case Atom(text) =>
      assert [Operand(text)] == [Operand(text)] + [];
      RunOne(s, Operand(text), []);
    case Paren(g) =>
      RunOne(s, Left, Tokens(g) + [Right]);
      ReadForm(PushOp(s, Open), g);
      RunAppend(PushOp(s, Open), Tokens(g), [Right]);
      CloseParen(s, Tree(g));
      assert [Right] == [Right] + [];
      RunOne(Run(PushOp(s, Open), Tokens(g)).value, Right, []);
    case Infix(op, l, r) =>
      ReadForm(s, l);
      RunAppend(s, Tokens(l), [Binary(op)] + Tokens(r));
      var s1 := Run(s, Tokens(l));
      RunOne(s1.value, Binary(op), Tokens(r));
      ReadForm(PushOp(Push(s, Tree(l)), Pending(op)), r);
      ReadInfix(s, op, l, r, s1, Run(PushOp(Push(s, Tree(l)), Pending(op)), Tokens(r)));
  }

  lemma ParsesBracketed(f: Form)
    requires Bracketed(f)
    ensures Parse(Tokens(f)) == Some(Tree(f))
  {
    ReadForm(Stacks([], []), f);
    assert [] + [Tree(f)] == [Tree(f)];
  }

  // ---------- every written form groups as some well bracketed one ----------

  function Min(a: nat, b: nat): nat {
    if a <= b then a else b
  }

  /** The well bracketed form of the tokens of l, op and r. */
  function Join(l: Form, op: Op, r: Form): Form
    decreases l, r
  {
    if r.Infix? && Priority(r.op) <= Min(Priority(op), Level(l)) then Infix(r.op, Join(l, op, r.left), r.right)
    else if l.Infix? && Priority(l.op) < Priority(op) then Infix(l.op, l.left, Join(l.right, op, r))
    else Infix(op, l, r)
  }

  lemma {:induction false} JoinBracketed(l: Form, op: Op, r: Form)
    requires Bracketed(l) && Bracketed(r)
    ensures Bracketed(Join(l, op, r)) && Level(Join(l, op, r)) == Min(Priority(op), Min(Level(l), Level(r)))
    decreases l, r
  {
    if r.Infix? && Priority(r.op) <= Min(Priority(op), Level(l)) {
      JoinBracketed(l, op, r.left);
    } else if l.Infix? && Priority(l.op) < Priority(op) {
      JoinBracketed(l.right, op, r);
    }
  }

  lemma {:induction false} JoinTokens(l: Form, op: Op, r: Form)
    ensures Tokens(Join(l, op, r)) == Tokens(l) + ([Binary(op)] + Tokens(r))
    decreases l, r
  {
    if r.Infix? && Priority(r.op) <= Min(Priority(op), Level(l)) {
      JoinTokens(l, op, r.left);
      Assoc4(Tokens(l), [Binary(op)], Tokens(r.left), [Binary(r.op)] + Tokens(r.right));
    } else if l.Infix? && Priority(l.op) < Priority(op) {
      JoinTokens(l.right, op, r);
      Assoc4(Tokens(l.left), [Binary(l.op)], Tokens(l.right), [Binary(op)] + Tokens(r));
    }
  }

  lemma Assoc4(a: seq<Token>, b: seq<Token>, c: seq<Token>, d: seq<Token>)
    ensures a + (b + c) + d == a + (b + (c + d))
  {
  }

  /** The same text, grouped by the priorities. */
  function Regroup(f: Form): Form {
    match f
    case Atom(_) => f
    case Infix(op, l, r) => Join(Regroup(l), op, Regroup(r))
    case Paren(g) => Paren(Regroup(g))
  }

  lemma {:induction false} Regrouped(f: Form)
    ensures Bracketed(Regroup(f)) && Tokens(Regroup(f)) == Tokens(f)
  {
    match f
    case Atom(_) =>
    case Infix(op, l, r) =>
      Regrouped(l);
      Regrouped(r);
      JoinBracketed(Regroup(l), op, Regroup(r));
      JoinTokens(Regroup(l), op, Regroup(r));
    case Paren(g) => Regrouped(g);
  }

  /** Whatever the parentheses, the parser accepts and groups by the priorities. */
  lemma ParsesAsRegrouped(f: Form)
    ensures Parse(Tokens(f)) == Some(Tree(Regroup(f)))
  {
    Regrouped(f);
    ParsesBracketed(Regroup(f));
  }

  /** The number of operators. */
  function Size(e: Expr): nat {
    match e
    case Leaf(_) => 0
    case Node(_, l, r) => Size(l) + Size(r) + 1
  }

  lemma {:induction false} JoinSize(l: Form, op: Op, r: Form)
    ensures Size(Tree(Join(l, op, r))) == Size(Tree(l)) + Size(Tree(r)) + 1
    decreases l, r
  {
    if r.Infix? && Priority(r.op) <= Min(Priority(op), Level(l)) {
      JoinSize(l, op, r.left);
    } else if l.Infix? && Priority(l.op) < Priority(op) {
      JoinSize(l.right, op, r);
    }
  }

  lemma {:induction false} RegroupSize(f: Form)
    ensures Size(Tree(Regroup(f))) == Size(Tree(f))
  {
    match f
    case Atom(_) =>
    case Infix(op, l, r) =>
      RegroupSize(l);
      RegroupSize(r);
      JoinSize(Regroup(l), op, Regroup(r));
    case Paren(g) => RegroupSize(g);
  }

  /** Grouping by the priorities changes the tree of every form that is not well bracketed. */
  lemma {:induction false} RegroupChanges(f: Form)
    requires Tree(Regroup(f)) == Tree(f)
    ensures Regroup(f) == f
  {
    match f
    case Atom(_) =>
    case Paren(g) => RegroupChanges(g);
    case Infix(op, l, r) =>
      RegroupSize(l);
      RegroupSize(r);
      assert Tree(Regroup(l)) == Tree(l) && Tree(Regroup(r)) == Tree(r);
      RegroupChanges(l);
      RegroupChanges(r);
  }

  /** The parser is right, and exactly so: the tokens of a written form are read as its tree if and only if
      parentheses stand wherever priority or left grouping needs them. */
  lemma ParsesExactly(f: Form)
    ensures Parse(Tokens(f)) == Some(Tree(f)) <==> Bracketed(f)
  {
    ParsesAsRegrouped(f);
    Regrouped(f);
    if Tree(Regroup(f)) == Tree(f) {
      RegroupChanges(f);
    }
    if Bracketed(f) {
      ParsesBracketed(f);
    }
  }

  /** An expression written with no more parentheses than needed. */
  function Print(e: Expr): Form {
    match e
    case Leaf(text) => Atom(text)
    case Node(op, l, r) => Infix(op, Wrap(Print(l), Priority(op)), Wrap(Print(r), Priority(op) + 1))
  }

  function Wrap(f: Form, least: nat): Form {
    if Level(f) < least then Paren(f) else f
  }

  lemma {:induction false} PrintRoundTrip(e: Expr)
    ensures Bracketed(Print(e)) && Tree(Print(e)) == e
    ensures Parse(Tokens(Print(e))) == Some(e)
  {
    match e
    case Leaf(_) => ParsesBracketed(Print(e));
    case Node(op, l, r) =>
      PrintRoundTrip(l);
      PrintRoundTrip(r);
      ParsesBracketed(Print(e));
  }

  // ---------- from text to tokens ----------

  predicate IsBlank(c: char) {
    c == ' ' || c == '\t'
  }

  predicate IsOperator(c: char) {
    c == '=' || c == '&' || c == '|' || c == '<' || c == '>' || c == '(' || c == ')'
  }

  function SkipBlank(p: string): (q: string)
    ensures |q| <= |p|
    ensures q != [] ==> !IsBlank(q[0])
  {
    if p != [] && IsBlank(p[0]) then SkipBlank(p[1..]) else p
  }

  function OperatorName(p: string): (name: string)
    requires p != []
    ensures 0 < |name| && name <= p
  {
    if p[0] == '(' || p[0] == ')' || ((p[0] == '>' || p[0] == '<') && (|p| == 1 || p[1] != '=')) then p[..1]
    else if |p| == 1 then p
    else p[..2]
  }

  /** The operator table. */
  function Lookup(name: string): Option<Token> {
    if name == "==" then Some(Binary(Eq))
    else if name == ">" then Some(Binary(Gt))
    else if name == ">=" then Some(Binary(Gte))
    else if name == "<" then Some(Binary(Lt))
    else if name == "<=" then Some(Binary(Lte))
    else if name == "&&" then Some(Binary(And))
    else if name == "||" then Some(Binary(Or))
    else if name == "(" then Some(Left)
    else if name == ")" then Some(Right)
    else None
  }

  function OperandLength(p: string): (n: nat)
    ensures n <= |p|
    ensures p != [] && !IsBlank(p[0]) && !IsOperator(p[0]) ==> n > 0
  {
    if p == [] || IsBlank(p[0]) || IsOperator(p[0]) then 0 else 1 + OperandLength(p[1..])
  }

  function Before(t: Token, r: Option<seq<Token>>): Option<seq<Token>> {
    if r.None? then None else Some([t] + r.value)
  }

  /** The tokens of a text; None for an invalid operator. */
  function Lex(text: string): Option<seq<Token>>
    decreases |text|
  {
    var p := SkipBlank(text);
    if p == [] then Some([])
    else if IsOperator(p[0]) then
      var t := Lookup(OperatorName(p));
      if t.None? then None else Before(t.value, Lex(p[|OperatorName(p)|..]))
    else Before(Operand(p[..OperandLength(p)]), Lex(p[OperandLength(p)..]))
  }

  function ParseText(text: string): Option<Expr> {
    var ts := Lex(text);
    if ts.None? then None else Parse(ts.value)
  }

  // ---------- any layout of a form ----------

  function Spelling(t: Token): string {
    match t
    case Operand(text) => text
    case Left => "("
    case Right => ")"
    case Binary(op) =>
      match op
      case Eq => "=="
      case Gt => ">"
      case Gte => ">="
      case Lt => "<"
      case Lte => "<="
      case And => "&&"
      case Or => "||"
  }

  ghost predicate Blank(gap: string) {
    forall i :: 0 <= i < |gap| ==> gap[i] == ' ' || gap[i] == '\t'
  }

  ghost predicate Word(text: string) {
    text != [] && forall i :: 0 <= i < |text| ==> text[i] !in " \t=&|<>()"
  }

  /** The tokens with gaps before, between and after them. */
  function Layout(ts: seq<Token>, gaps: seq<string>): string
    requires |gaps| == |ts| + 1
  {
    if ts == [] then gaps[0] else gaps[0] + (Spelling(ts[0]) + Layout(ts[1..], gaps[1..]))
  }

  predicate Clash(t: Token, u: Token) {
    (t.Operand? && u.Operand?) || (t.Binary? && u.Binary?)
  }

  /** Nothing in the list needs a gap to be told from its neighbour. */
  ghost predicate Apart(ts: seq<Token>) {
    forall i :: 0 < i < |ts| ==> !Clash(ts[i - 1], ts[i])
  }

  ghost predicate Words(ts: seq<Token>) {
    forall i :: 0 <= i < |ts| && ts[i].Operand? ==> Word(ts[i].text)
  }

  /** What may follow a token directly. */
  predicate Stops(t: Token, rest: string) {
    rest == [] || IsBlank(rest[0]) || if t.Operand? then IsOperator(rest[0]) else t.Binary? ==> rest[0] != '='
  }

  lemma {:induction false} SkipGap(gap: string, rest: string)
    requires Blank(gap)
    ensures SkipBlank(gap + rest) == SkipBlank(rest)
  {
    if gap == [] {
      assert gap + rest == rest;
    } else {
      assert (gap + rest)[1..] == gap[1..] + rest;
      SkipGap(gap[1..], rest);
    }
  }

  lemma {:induction false} WordLength(text: string, rest: string)
    requires Word(text) || text == []
    requires rest == [] || IsBlank(rest[0]) || IsOperator(rest[0])
    ensures OperandLength(text + rest) == |text|
  {
    if text == [] {
      assert text + rest == rest;
    } else {
      assert (text + rest)[1..] == text[1..] + rest;
      WordLength(text[1..], rest);
    }
  }

  lemma SpelledName(t: Token, rest: string)
    requires !t.Operand? && Stops(t, rest)
    ensures var p := Spelling(t) + rest;
            IsOperator(p[0]) && OperatorName(p) == Spelling(t) && Lookup(Spelling(t)) == Some(t)
  {
    var p := Spelling(t) + rest;
    assert |p| > |Spelling(t)| ==> p[|Spelling(t)|] == rest[0];
  }

  lemma LexToken(gap: string, t: Token, rest: string)
    requires Blank(gap) && (t.Operand? ==> Word(t.text)) && Stops(t, rest)
    ensures Lex(gap + (Spelling(t) + rest)) == Before(t, Lex(rest))
  {
    var p, n := Spelling(t) + rest, |Spelling(t)|;
    SkipGap(gap, p);
    assert p[..n] == Spelling(t) && p[n..] == rest;
    if t.Operand? {
      WordLength(t.text, rest);
    } else {
      SpelledName(t, rest);
    }
    assert !IsBlank(p[0]) && SkipBlank(p) == p;
  }

  lemma LexBlank(gap: string)
    requires Blank(gap)
    ensures Lex(gap) == Some([])
  {
    SkipGap(gap, []);
    assert gap + [] == gap;
  }

  lemma NextStops(ts: seq<Token>, gaps: seq<string>)
    requires |gaps| == |ts| + 1 && ts != [] && Apart(ts) && Words(ts) && Blank(gaps[1])
    ensures Stops(ts[0], Layout(ts[1..], gaps[1..]))
  {
    if gaps[1] == [] && |ts| > 1 {
      assert !Clash(ts[1 - 1], ts[1]);
      assert ts[1..][0] == ts[1];
      assert ts[1].Operand? ==> Word(ts[1].text);
      assert Layout(ts[1..], gaps[1..])[0] == Spelling(ts[1])[0];
    } else if gaps[1] != [] {
      assert Layout(ts[1..], gaps[1..])[0] == gaps[1][0];
    }
  }

  lemma {:induction false} LexLayout(ts: seq<Token>, gaps: seq<string>)
    requires |gaps| == |ts| + 1 && Apart(ts) && Words(ts)
    requires forall i :: 0 <= i < |gaps| ==> Blank(gaps[i])
    ensures Lex(Layout(ts, gaps)) == Some(ts)
    decreases |ts|
  {
    if ts == [] {
      LexBlank(gaps[0]);
    } else {
      NextStops(ts, gaps);
      LexToken(gaps[0], ts[0], Layout(ts[1..], gaps[1..]));
      assert Apart(ts[1..]) by {
        forall i | 0 < i < |ts[1..]| ensures !Clash(ts[1..][i - 1], ts[1..][i]) {
          assert !Clash(ts[i + 1 - 1], ts[i + 1]);
        }
      }
      LexLayout(ts[1..], gaps[1..]);
      assert [ts[0]] + ts[1..] == ts;
    }
  }

  ghost predicate Starts(t: Token) {
    t.Operand? || t.Left?
  }

  ghost predicate Ends(t: Token) {
    t.Operand? || t.Right?
  }

  lemma ApartJoin(a: seq<Token>, b: seq<Token>)
    requires Apart(a) && Apart(b) && a != [] && b != [] && !Clash(a[|a| - 1], b[0])
    ensures Apart(a + b)
  {
    forall i | 0 < i < |a + b| ensures !Clash((a + b)[i - 1], (a + b)[i]) {
      if i > |a| {
        assert !Clash(b[i - |a| - 1], b[i - |a|]);
      }
    }
  }

  lemma {:induction false} FormApart(f: Form)
    ensures var ts := Tokens(f); Starts(ts[0]) && Ends(ts[|ts| - 1]) && Apart(ts)
  {
    match f
    case Atom(_) =>
    case Infix(op, l, r) =>
      FormApart(l);
      FormApart(r);
      ApartJoin([Binary(op)], Tokens(r));
      ApartJoin(Tokens(l), [Binary(op)] + Tokens(r));
    case Paren(g) =>
      FormApart(g);
      ApartJoin(Tokens(g), [Right]);
      ApartJoin([Left], Tokens(g) + [Right]);
  }

  /** The same from the text: blanks may stand anywhere between the tokens or nowhere. */
  lemma TextParsesExactly(f: Form, gaps: seq<string>)
    requires Words(Tokens(f)) && |gaps| == |Tokens(f)| + 1
    requires forall i :: 0 <= i < |gaps| ==> Blank(gaps[i])
    ensures ParseText(Layout(Tokens(f), gaps)) == Some(Tree(f)) <==> Bracketed(f)
  {
    FormApart(f);
    LexLayout(Tokens(f), gaps);
    ParsesExactly(f);
  }

  // ---------- the parser itself ----------

  /** What the loop will return from these stacks and this rest of the text. */
  function Rest(s: Stacks, ts: Option<seq<Token>>): Option<Expr> {
    if ts.None? then None else Result(Run(s, ts.value))
  }

  lemma RestBefore(s: Stacks, t: Token, ts: Option<seq<Token>>)
    ensures Rest(s, Before(t, ts)) == if Take(s, t).None? then None else Rest(Take(s, t).value, ts)
  {
    if ts.Some? {
      RunOne(s, t, ts.value);
    }
  }

  /** The reduction loop; the stacks are local variables of its caller, passed and returned. */
  method ReduceStacks(s: Stacks, p: nat) returns (r: Option<Stacks>)
    ensures r == Reduce(s, p)
  {
    var operands, operators := s.operands, s.operators;
    while operators != [] && p <= EntryPriority(operators[|operators| - 1])
      invariant Reduce(Stacks(operands, operators), p) == Reduce(s, p)
      decreases |operators|
    {
      var top := operators[|operators| - 1];
      operators := operators[..|operators| - 1];
      if top.Open? {
        break;
      }
      if |operands| < 2 {
        return None;
      }
      var right, left := operands[|operands| - 1], operands[|operands| - 2];
      operands := operands[..|operands| - 2] + [Node(top.op, left, right)];
    }
    r := Some(Stacks(operands, operators));
  }

  method SkipBlanks(text: string) returns (p: string)
    ensures p == SkipBlank(text)
  {
    p := text;
    while p != [] && IsBlank(p[0])
      invariant SkipBlank(p) == SkipBlank(text)
      decreases |p|
    {
      p := p[1..];
    }
  }

  method OperandEnd(p: string) returns (n: nat)
    ensures n == OperandLength(p)
  {
    n := 0;
    while n < |p| && !IsBlank(p[n]) && !IsOperator(p[n])
      invariant n <= |p| && OperandLength(p) == n + OperandLength(p[n..])
    {
      n := n + 1;
    }
  }

  method TakeOperator(s: Stacks, t: Token) returns (r: Option<Stacks>)
    requires !t.Operand?
    ensures r == Take(s, t)
  {
    r := Some(s);
    if t != Left {
      r := ReduceStacks(s, if t.Binary? then Priority(t.op) else PARENTHESIS);
      if r.None? {
        return;
      }
    }
    if t != Right {
      r := Some(PushOp(r.value, if t.Binary? then Pending(t.op) else Open));
    }
  }

  method ParseFilterExpression(expr: string) returns (root: Option<Expr>)
    ensures root == ParseText(expr)
  {
    var s, ptr := Stacks([], []), expr;
    while true
      invariant ParseText(expr) == Rest(s, Lex(ptr))
      decreases |ptr|
    {
      var p := SkipBlanks(ptr);
      if p == [] {
        break;
      } else if IsOperator(p[0]) {
        var name := OperatorName(p);
        var operator := Lookup(name);
        if operator.None? {
          return None;
        }
        RestBefore(s, operator.value, Lex(p[|name|..]));
        var r := TakeOperator(s, operator.value);
        if r.None? {
          return None;
        }
        s, ptr := r.value, p[|name|..];
      } else {
        var n := OperandEnd(p);
        RestBefore(s, Operand(p[..n]), Lex(p[n..]));
        s, ptr := Push(s, Leaf(p[..n])), p[n..];
      }
    }
    var r := ReduceStacks(s, END);
    if r.None? || |r.value.operands| != 1 {
      return None;
    }
    root := Some(r.value.operands[0]);
  }
}
