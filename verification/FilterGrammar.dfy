/** The grammar of filter expressions, without numbers:

      expr    ::= term    | expr ("&&" | "||") term
      term    ::= primary | term ("==" | ">" | ">=" | "<" | "<=") primary
      primary ::= operand | "(" expr ")"

    so comparisons bind tighter than the connectives, both connectives share one level, and every level groups to
    the left.  The two-stack parser of module `FilterParser`, whose table of priorities (rule_engine/mqtt_rule_parser.c:160-179)
    does not occur here, reads exactly this grammar. */
module FilterGrammar {
  import opened Wrappers
  import opened FilterParser

  datatype Expression = OneTerm(term: Term) | Joined(left: Expression, op: Op, right: Term)
  datatype Term = OnePrimary(primary: Primary) | Compared(left: Term, op: Op, right: Primary)
  datatype Primary = Plain(text: string) | Grouped(inner: Expression)

  predicate Correct(e: Expression) {
    match e
    case OneTerm(t) => CorrectTerm(t)
    case Joined(l, op, t) => Correct(l) && (op == And || op == Or) && CorrectTerm(t)
  }

  predicate CorrectTerm(t: Term) {
    match t
    case OnePrimary(p) => CorrectPrimary(p)
    case Compared(l, op, p) =>
      CorrectTerm(l) && (op == Eq || op == Gt || op == Gte || op == Lt || op == Lte) && CorrectPrimary(p)
  }

  predicate CorrectPrimary(p: Primary) {
    match p
    case Plain(_) => true
    case Grouped(e) => Correct(e)
  }

  /** The text of a derivation, and its tree. */
  function Written(e: Expression): seq<Token> {
    match e
    case OneTerm(t) => WrittenTerm(t)
    case Joined(l, op, t) => Written(l) + ([Binary(op)] + WrittenTerm(t))
  }

  function WrittenTerm(t: Term): seq<Token> {
    match t
    case OnePrimary(p) => WrittenPrimary(p)
    case Compared(l, op, p) => WrittenTerm(l) + ([Binary(op)] + WrittenPrimary(p))
  }

  function WrittenPrimary(p: Primary): seq<Token> {
    match p
    case Plain(text) => [Operand(text)]
    case Grouped(e) => [Left] + (Written(e) + [Right])
  }

  function Meant(e: Expression): Expr {
    match e
    case OneTerm(t) => MeantTerm(t)
    case Joined(l, op, t) => Node(op, Meant(l), MeantTerm(t))
  }

  function MeantTerm(t: Term): Expr {
    match t
    case OnePrimary(p) => MeantPrimary(p)
    case Compared(l, op, p) => Node(op, MeantTerm(l), MeantPrimary(p))
  }

  function MeantPrimary(p: Primary): Expr {
    match p
    case Plain(text) => Leaf(text)
    case Grouped(e) => Meant(e)
  }

  // ---------- derivations and well bracketed forms ----------

  function FormOf(e: Expression): Form {
    match e
    case OneTerm(t) => FormOfTerm(t)
    case Joined(l, op, t) => Infix(op, FormOf(l), FormOfTerm(t))
  }

  function FormOfTerm(t: Term): Form {
    match t
    case OnePrimary(p) => FormOfPrimary(p)
    case Compared(l, op, p) => Infix(op, FormOfTerm(l), FormOfPrimary(p))
  }

  function FormOfPrimary(p: Primary): Form {
    match p
    case Plain(text) => Atom(text)
    case Grouped(e) => Paren(FormOf(e))
  }

  ghost predicate Represents(f: Form, ts: seq<Token>, e: Expr) {
    Bracketed(f) && Tokens(f) == ts && Tree(f) == e
  }

  lemma {:induction false} FormRepresents(e: Expression)
    requires Correct(e)
    ensures Represents(FormOf(e), Written(e), Meant(e)) && Level(FormOf(e)) >= Priority(And)
  {
    match e
    case OneTerm(t) => TermRepresents(t);
    case Joined(l, op, t) =>
      FormRepresents(l);
      TermRepresents(t);
  }

  lemma {:induction false} TermRepresents(t: Term)
    requires CorrectTerm(t)
    ensures Represents(FormOfTerm(t), WrittenTerm(t), MeantTerm(t)) && Level(FormOfTerm(t)) >= Priority(Eq)
  {
    match t
    case OnePrimary(p) => PrimaryRepresents(p);
    case Compared(l, op, p) =>
      TermRepresents(l);
      PrimaryRepresents(p);
  }

  lemma {:induction false} PrimaryRepresents(p: Primary)
    requires CorrectPrimary(p)
    ensures var f := FormOfPrimary(p); Represents(f, WrittenPrimary(p), MeantPrimary(p)) && !f.Infix?
  {
    match p
    case Plain(_) =>
    case Grouped(e) => FormRepresents(e);
  }

  /** The parser reads every derivation of the grammar as its tree. */
  lemma ParsesGrammar(e: Expression)
    requires Correct(e)
    ensures Parse(Written(e)) == Some(Meant(e))
  {
    FormRepresents(e);
    ParsesBracketed(FormOf(e));
  }

  /** The same for the text, whatever blanks stand between the tokens. */
  lemma ParsesGrammarText(e: Expression, gaps: seq<string>)
    requires Correct(e) && Words(Written(e)) && |gaps| == |Written(e)| + 1
    requires forall i :: 0 <= i < |gaps| ==> Blank(gaps[i])
    ensures ParseText(Layout(Written(e), gaps)) == Some(Meant(e))
  {
    FormRepresents(e);
    TextParsesExactly(FormOf(e), gaps);
  }

  // ---------- the grammar derives every text with balanced parentheses around operands and operators ----------

  lemma {:induction false} DerivesForm(f: Form) returns (e: Expression)
    requires Bracketed(f)
    ensures Correct(e) && FormOf(e) == f
    decreases f, 2
  {
    if f.Infix? && (f.op == And || f.op == Or) {
      var l := DerivesForm(f.left);
      var t := DerivesTerm(f.right);
      e := Joined(l, f.op, t);
    } else {
      var t := DerivesTerm(f);
      e := OneTerm(t);
    }
  }

  lemma {:induction false} DerivesTerm(f: Form) returns (t: Term)
    requires Bracketed(f) && !(f.Infix? && (f.op == And || f.op == Or))
    ensures CorrectTerm(t) && FormOfTerm(t) == f
    decreases f, 1
  {
    if f.Infix? {
      var l := DerivesTerm(f.left);
      var p := DerivesPrimary(f.right);
      t := Compared(l, f.op, p);
    } else {
      var p := DerivesPrimary(f);
      t := OnePrimary(p);
    }
  }

  lemma {:induction false} DerivesPrimary(f: Form) returns (p: Primary)
    requires Bracketed(f) && !f.Infix?
    ensures CorrectPrimary(p) && FormOfPrimary(p) == f
    decreases f, 0
  {
    match f
    case Atom(text) => p := Plain(text);
    case Paren(g) =>
      var e := DerivesForm(g);
      p := Grouped(e);
  }

  /** Every way to write operands, operators and parentheses is derived by the grammar, and the parser returns the
      tree of that derivation. */
  lemma GrammarIsComplete(f: Form) returns (e: Expression)
    ensures Correct(e) && Written(e) == Tokens(f) && Parse(Tokens(f)) == Some(Meant(e))
  {
    Regrouped(f);
    e := DerivesForm(Regroup(f));
    FormRepresents(e);
    ParsesGrammar(e);
  }

  // ---------- whatever the tokens, nothing is dropped or moved ----------

  function Leaves(e: Expr): seq<string> {
    match e
    case Leaf(text) => [text]
    case Node(_, l, r) => Leaves(l) + Leaves(r)
  }

  function AllLeaves(es: seq<Expr>): seq<string> {
    if es == [] then [] else AllLeaves(es[..|es| - 1]) + Leaves(es[|es| - 1])
  }

  function Operands(ts: seq<Token>): seq<string> {
    if ts == [] then []
    else if ts[0].Operand? then [ts[0].text] + Operands(ts[1..])
    else Operands(ts[1..])
  }

  lemma CombineLeaves(s: Stacks)
    requires |s.operands| >= 2 && s.operators != [] && s.operators[|s.operators| - 1].Pending?
    ensures AllLeaves(Combine(s).operands) == AllLeaves(s.operands)
  {
    var q, n := s.operands, |s.operands|;
    var q' := Combine(s).operands;
    assert q'[..|q'| - 1] == q[..n - 2] && q[..n - 1][..n - 2] == q[..n - 2];
    assert AllLeaves(q) == AllLeaves(q[..n - 2]) + Leaves(q[n - 2]) + Leaves(q[n - 1]);
  }

  lemma {:induction false} ReduceLeaves(s: Stacks, p: nat)
    ensures Reduce(s, p).Some? ==> AllLeaves(Reduce(s, p).value.operands) == AllLeaves(s.operands)
    decreases |s.operators|
  {
    var m := |s.operators|;
    if m > 0 && p <= Top(s) && s.operators[m - 1].Pending? && |s.operands| >= 2 {
      CombineLeaves(s);
      ReduceLeaves(Combine(s), p);
    }
  }

  lemma {:induction false} RunLeaves(s: Stacks, ts: seq<Token>)
    ensures Run(s, ts).Some? ==> AllLeaves(Run(s, ts).value.operands) == AllLeaves(s.operands) + Operands(ts)
    decreases |ts|
  {
    if ts == [] {
      assert AllLeaves(s.operands) + [] == AllLeaves(s.operands);
    } else if Take(s, ts[0]).Some? {
      var u := Take(s, ts[0]).value;
      TakeLeaves(s, ts[0]);
      RunLeaves(u, ts[1..]);
      var here := if ts[0].Operand? then [ts[0].text] else [];
      Joining(AllLeaves(s.operands), here, Operands(ts[1..]));
      assert Operands(ts) == here + Operands(ts[1..]);
    }
  }

  lemma Joining<T>(a: seq<T>, b: seq<T>, c: seq<T>)
    ensures a + b + c == a + (b + c)
  {
  }

  lemma TakeLeaves(s: Stacks, t: Token)
    requires Take(s, t).Some?
    ensures AllLeaves(Take(s, t).value.operands) == AllLeaves(s.operands) + if t.Operand? then [t.text] else []
  {
    var u := Take(s, t).value;
    match t
    case Operand(text) => assert u.operands[..|u.operands| - 1] == s.operands;
    case Left =>
    case Right => ReduceLeaves(s, PARENTHESIS);
    case Binary(op) => ReduceLeaves(s, Priority(op));
  }

  /** The leaves of a tree that the parser returns are the operands of the text, all of them and in order; a text that
      leaves operands over is refused. */
  lemma NothingDropped(ts: seq<Token>)
    ensures Parse(ts).Some? ==> Leaves(Parse(ts).value) == Operands(ts)
  {
    var s := Stacks([], []);
    RunLeaves(s, ts);
    if Parse(ts).Some? {
      var r := Run(s, ts).value;
      ReduceLeaves(r, END);
      var q := Reduce(r, END).value.operands;
      assert q[..0] == [] && q == [q[0]];
      assert AllLeaves(q) == AllLeaves(q[..0]) + Leaves(q[0]);
      assert [] + Leaves(q[0]) == Leaves(q[0]) && [] + Operands(ts) == Operands(ts);
    }
  }

  // ---------- operators ----------

  /** The operator table has the nine spellings and no other. */
  lemma LookupExact(name: string, t: Token)
    ensures Lookup(name) == Some(t) <==> !t.Operand? && name == Spelling(t)
  {
  }

  /** A text with an operator that is not in the table, behind blanks, is refused. */
  lemma UnknownOperatorRefused(gap: string, p: string)
    requires Blank(gap) && p != [] && IsOperator(p[0]) && (forall t: Token :: !t.Operand? ==> OperatorName(p) != Spelling(t))
    ensures ParseText(gap + p) == None
  {
    SkipGap(gap, p);
    var t := Lookup(OperatorName(p));
    if t.Some? {
      LookupExact(OperatorName(p), t.value);
    }
    assert SkipBlank(p) == p;
  }
}
