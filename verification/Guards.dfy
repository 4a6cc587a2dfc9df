/** Guard expressions (macros/src/parser/transition.rs): the parser, the
    printer, and what the emitted tokens mean where they are placed
    (macros/src/codegen.rs, macros/src/composite_codegen.rs,
    macros/src/orthogonal_codegen.rs). */
module Guards {
  import opened Prelude

  /** A guard function's name and whether it is called with `.await`. */
  datatype Leaf = Leaf(name: string, isAsync: bool)

  /** Tokens as the macro sees them: parentheses hold their content. `Block` is
      the block that calls a guard, `Flag` any other boolean expression without
      operators of its own; neither occurs in what the parser accepts. */
  datatype Token =
    | Ident(name: string) | Async | Bang | AndAnd | OrOr | Parens(inside: seq<Token>)
    | Block(leaf: Leaf) | Flag(value: bool) | Other

  datatype Expr =
    | Guard(leaf: Leaf)
    | Not(inner: Expr)
    | Group(inner: Expr)
    | And(left: Expr, right: Expr)
    | Or(left: Expr, right: Expr)

  // ---- Printing -----------------------------------------------------------------------

  /** `to_token_stream`: `visit` prints the leaves. */
  function Tokens(e: Expr, visit: Leaf -> seq<Token>): seq<Token> {
    match e
    case Guard(leaf) => visit(leaf)
    case Not(inner) => [Bang] + Tokens(inner, visit)
    case Group(inner) => [Parens(Tokens(inner, visit))]
    case And(l, r) => Tokens(l, visit) + [AndAnd] + Tokens(r, visit)
    case Or(l, r) => Tokens(l, visit) + [OrOr] + Tokens(r, visit)
  }

  /** A leaf as it is written in a table. */
  function Written(leaf: Leaf): seq<Token> {
    if leaf.isAsync then [Async, Ident(leaf.name)] else [Ident(leaf.name)]
  }

  /** A leaf as the generated code calls it. */
  function Called(leaf: Leaf): seq<Token> {
    [Block(leaf)]
  }

  // ---- Parsing --------------------------------------------------------------------------

  function Weight(ts: seq<Token>): nat {
    if ts == [] then 0 else (if ts[0].Parens? then 1 + Weight(ts[0].inside) else 1) + Weight(ts[1..])
  }

  predicate StartsWith(ts: seq<Token>, t: Token) {
    ts != [] && ts[0] == t
  }

  /** An expression and the tokens after it, or `None` for a syntax error. */
  type Parsed = Option<(Expr, seq<Token>)>

  function ParseOr(ts: seq<Token>): (r: Parsed)
    ensures r.Some? ==> Weight(r.value.1) < Weight(ts)
    decreases Weight(ts), 4
  {
    match ParseAnd(ts)
    case None => None
    case Some((left, rest)) => OrTail(left, rest)
  }

  /** The loop of `parse_or`. */
  function OrTail(left: Expr, ts: seq<Token>): (r: Parsed)
    ensures r.Some? ==> Weight(r.value.1) <= Weight(ts)
    decreases Weight(ts), 0
  {
    if StartsWith(ts, OrOr) then
      match ParseAnd(ts[1..])
      case None => None
      case Some((right, rest)) => OrTail(Or(left, right), rest)
    else Some((left, ts))
  }

  function ParseAnd(ts: seq<Token>): (r: Parsed)
    ensures r.Some? ==> Weight(r.value.1) < Weight(ts)
    decreases Weight(ts), 3
  {
    match ParseNot(ts)
    case None => None
    case Some((left, rest)) => AndTail(left, rest)
  }

  /** The loop of `parse_and`. */
  function AndTail(left: Expr, ts: seq<Token>): (r: Parsed)
    ensures r.Some? ==> Weight(r.value.1) <= Weight(ts)
    decreases Weight(ts), 0
  {
    if StartsWith(ts, AndAnd) then
      match ParseNot(ts[1..])
      case None => None
      case Some((right, rest)) => AndTail(And(left, right), rest)
    else Some((left, ts))
  }

  /** At most one `!`. */
  function ParseNot(ts: seq<Token>): (r: Parsed)
    ensures r.Some? ==> Weight(r.value.1) < Weight(ts)
    decreases Weight(ts), 2
  {
    if StartsWith(ts, Bang) then
      match ParsePrimary(ts[1..])
      case None => None
      case Some((inner, rest)) => Some((Not(inner), rest))
    else ParsePrimary(ts)
  }

  /** Tokens left over inside parentheses are an error. */
  function ParsePrimary(ts: seq<Token>): (r: Parsed)
    ensures r.Some? ==> Weight(r.value.1) < Weight(ts)
    decreases Weight(ts), 1
  {
    if ts == [] then None
    else match ts[0]
      case Parens(inside) =>
        (match ParseOr(inside)
         case None => None
         case Some((e, rest)) => if rest == [] then Some((Group(e), ts[1..])) else None)
      case Async => if |ts| > 1 && ts[1].Ident? then Some((Guard(Leaf(ts[1].name, true)), ts[1..][1..])) else None
      case Ident(name) => Some((Guard(Leaf(name, false)), ts[1..]))
      case _ => None
  }

  /** The whole content of the guard's brackets. */
  function Parse(ts: seq<Token>): (r: Option<Expr>) {
    match ParseOr(ts)
    case None => None
    case Some((e, rest)) => if rest == [] then Some(e) else None
  }

  // ---- The trees the grammar has -----------------------------------------------------------

  predicate IsOr(e: Expr) {
    if e.Or? then IsOr(e.left) && IsAnd(e.right) else IsAnd(e)
  }

  predicate IsAnd(e: Expr): (r: bool)
    ensures r ==> !e.Or?
    decreases e, 1
  {
    if e.And? then IsAnd(e.left) && IsNot(e.right) else IsNot(e)
  }

  predicate IsNot(e: Expr): (r: bool)
    ensures r ==> !e.Or? && !e.And?
    decreases e, 0
  {
    match e
    case Not(inner) => !inner.Not? && IsNot(inner)
    case Guard(_) => true
    case Group(inner) => IsOr(inner)
    case _ => false
  }

  // ---- Parser and printer are inverse --------------------------------------------------------

  function Print(e: Expr): seq<Token> {
    Tokens(e, Written)
  }

  lemma {:induction false} OrReads(e: Expr, rest: seq<Token>)
    requires IsOr(e) && !StartsWith(rest, AndAnd)
    ensures ParseOr(Print(e) + rest) == OrTail(e, rest)
    decreases e, 2
  {
    if e.Or? {
      var tail := [OrOr] + (Print(e.right) + rest);
      assert Print(e) + rest == Print(e.left) + tail;
      OrReads(e.left, tail);
      AndReads(e.right, rest);
    } else {
      AndReads(e, rest);
    }
  }

  lemma {:induction false} AndReads(e: Expr, rest: seq<Token>)
    requires IsAnd(e)
    ensures ParseAnd(Print(e) + rest) == AndTail(e, rest)
    decreases e, 1
  {
    if e.And? {
      var tail := [AndAnd] + (Print(e.right) + rest);
      assert Print(e) + rest == Print(e.left) + tail;
      AndReads(e.left, tail);
      NotReads(e.right, rest);
    } else {
      NotReads(e, rest);
    }
  }

  lemma {:induction false} NotReads(e: Expr, rest: seq<Token>)
    requires IsNot(e)
    ensures ParseNot(Print(e) + rest) == Some((e, rest))
    ensures !e.Not? ==> ParsePrimary(Print(e) + rest) == Some((e, rest))
    decreases e, 0
  {
    match e
    case Guard(leaf) =>
    case Group(inner) =>
      OrReads(inner, []);
      assert Print(inner) + [] == Print(inner);
    case Not(inner) =>
      NotReads(inner, rest);
      assert (Print(e) + rest)[1..] == Print(inner) + rest;
  }

  /** What was read, printed, is what it was read from. */
  ghost predicate Reproduces(ts: seq<Token>, e: Expr, rest: seq<Token>) {
    ts == Print(e) + rest
  }

  lemma {:induction false} OrPrints(ts: seq<Token>)
    ensures match ParseOr(ts)
            case None => true
            case Some((e, rest)) => IsOr(e) && Reproduces(ts, e, rest)
    decreases Weight(ts), 4
  {
    AndPrints(ts);
    match ParseAnd(ts)
    case None =>
    case Some((left, rest)) => OrTailPrints(left, rest);
  }

  lemma {:induction false} OrTailPrints(left: Expr, ts: seq<Token>)
    requires IsOr(left)
    ensures match OrTail(left, ts)
            case None => true
            case Some((e, rest)) => IsOr(e) && Print(left) + ts == Print(e) + rest
    decreases Weight(ts), 0
  {
    if StartsWith(ts, OrOr) {
      AndPrints(ts[1..]);
      match ParseAnd(ts[1..])
      case None =>
      case Some((right, rest)) =>
        OrTailPrints(Or(left, right), rest);
        assert Print(left) + ts == Print(Or(left, right)) + rest;
    }
  }

  lemma {:induction false} AndPrints(ts: seq<Token>)
    ensures match ParseAnd(ts)
            case None => true
            case Some((e, rest)) => IsAnd(e) && Reproduces(ts, e, rest)
    decreases Weight(ts), 3
  {
    NotPrints(ts);
    match ParseNot(ts)
    case None =>
    case Some((left, rest)) => AndTailPrints(left, rest);
  }

  lemma {:induction false} AndTailPrints(left: Expr, ts: seq<Token>)
    requires IsAnd(left)
    ensures match AndTail(left, ts)
            case None => true
            case Some((e, rest)) => IsAnd(e) && Print(left) + ts == Print(e) + rest
    decreases Weight(ts), 0
  {
    if StartsWith(ts, AndAnd) {
      NotPrints(ts[1..]);
      match ParseNot(ts[1..])
      case None =>
      case Some((right, rest)) =>
        AndTailPrints(And(left, right), rest);
        assert Print(left) + ts == Print(And(left, right)) + rest;
    }
  }

  lemma {:induction false} NotPrints(ts: seq<Token>)
    ensures match ParseNot(ts)
            case None => true
            case Some((e, rest)) => IsNot(e) && Reproduces(ts, e, rest)
    decreases Weight(ts), 2
  {
    if StartsWith(ts, Bang) {
      PrimaryPrints(ts[1..]);
    } else {
      PrimaryPrints(ts);
    }
  }

  lemma GroupPrints(inside: seq<Token>)
    ensures match ParseOr(inside)
            case None => true
            case Some((e, rest)) => rest == [] && Reproduces(inside, e, rest) ==> Print(Group(e)) == [Parens(inside)]
  {
    match ParseOr(inside)
    case None =>
    case Some((e, rest)) => assert Print(e) + [] == Print(e);
  }

  lemma {:induction false} PrimaryPrints(ts: seq<Token>)
    ensures match ParsePrimary(ts)
            case None => true
            case Some((e, rest)) => IsNot(e) && !e.Not? && Reproduces(ts, e, rest)
    decreases Weight(ts), 1
  {
    if ts != [] {
      assert ts == [ts[0]] + ts[1..];
      match ts[0]
      case Parens(inside) =>
        OrPrints(inside);
        GroupPrints(inside);
      case Async => assert |ts| > 1 ==> ts == [ts[0], ts[1]] + ts[1..][1..];
      case _ =>
    }
  }

  /** The parser accepts exactly the printed forms of the trees of the grammar,
      and reads them back: `||` and `&&` associate to the left, `&&` binds
      tighter, `!` takes one primary, and parentheses and `async` are kept. */
  lemma ParseInvertsPrint(ts: seq<Token>, e: Expr)
    ensures Parse(ts) == Some(e) <==> IsOr(e) && ts == Print(e)
  {
    OrPrints(ts);
    if IsOr(e) {
      OrReads(e, []);
      assert Print(e) + [] == Print(e);
    }
    if Parse(ts) == Some(e) {
      assert Print(e) + [] == Print(e);
    }
  }

  /** No token sequence is two guards, and every guard has a token sequence. */
  lemma PrintIsInjective(e: Expr, f: Expr)
    requires IsOr(e) && IsOr(f) && Print(e) == Print(f)
    ensures e == f
  {
    ParseInvertsPrint(Print(e), e);
    ParseInvertsPrint(Print(f), f);
  }

  // ---- Reading emitted tokens as Rust does -----------------------------------------------------

  /** Boolean expressions of the generated code. */
  datatype Rust =
    | Call(leaf: Leaf) | Const(value: bool) | Neg(inner: Rust) | Paren(inner: Rust)
    | Both(left: Rust, right: Rust) | Either(left: Rust, right: Rust)

  /** The place of the last `t` outside parentheses. */
  function LastOf(ts: seq<Token>, t: Token): (r: Option<nat>)
    ensures r.Some? ==> r.value < |ts| && ts[r.value] == t && t !in ts[r.value + 1..]
    ensures r.None? ==> t !in ts
  {
    if ts == [] then None
    else if ts[|ts| - 1] == t then Some(|ts| - 1)
    else
      assert ts == ts[..|ts| - 1] + [ts[|ts| - 1]];
      var r := LastOf(ts[..|ts| - 1], t);
      assert r.Some? ==> ts[r.value + 1..] == ts[..|ts| - 1][r.value + 1..] + [ts[|ts| - 1]];
      r
  }

  /** The Rust Reference, "Expression precedence": unary `!` binds tightest, then
      `&&`, then `||`, and both operators associate to the left, so the last
      weakest operator outside parentheses is the root. */
  function Read(ts: seq<Token>): Option<Rust>
    decreases Weight(ts)
  {
    var or, and := LastOf(ts, OrOr), LastOf(ts, AndAnd);
    if or.Some? then
      WeightAround(ts, or.value);
      Join(Read(ts[..or.value]), Read(ts[or.value + 1..]), true)
    else if and.Some? then
      WeightAround(ts, and.value);
      Join(Read(ts[..and.value]), Read(ts[and.value + 1..]), false)
    else if StartsWith(ts, Bang) then
      match Read(ts[1..]) case None => None case Some(e) => Some(Neg(e))
    else if |ts| != 1 then None
    else
      match ts[0]
      case Block(leaf) => Some(Call(leaf))
      case Flag(b) => Some(Const(b))
      case Parens(inside) => (match Read(inside) case None => None case Some(e) => Some(Paren(e)))
      case _ => None
  }

  function Join(l: Option<Rust>, r: Option<Rust>, or: bool): Option<Rust> {
    if l.None? || r.None? then None
    else if or then Some(Either(l.value, r.value)) else Some(Both(l.value, r.value))
  }

  lemma {:induction false} WeightSplit(a: seq<Token>, b: seq<Token>)
    ensures Weight(a + b) == Weight(a) + Weight(b)
    decreases |a|
  {
    if a == [] {
      assert a + b == b;
    } else {
      assert (a + b)[1..] == a[1..] + b;
      WeightSplit(a[1..], b);
    }
  }

  lemma WeightAround(ts: seq<Token>, i: nat)
    requires i < |ts|
    ensures Weight(ts[..i]) < Weight(ts) && Weight(ts[i + 1..]) < Weight(ts)
  {
    assert ts == ts[..i] + ([ts[i]] + ts[i + 1..]);
    WeightSplit(ts[..i], [ts[i]] + ts[i + 1..]);
    WeightSplit([ts[i]], ts[i + 1..]);
    assert [ts[i]][1..] == [];
  }

  /** The tokens of a guard in the generated code. */
  function Emit(e: Expr): seq<Token> {
    Tokens(e, Called)
  }

  function AsRust(e: Expr): Rust {
    match e
    case Guard(leaf) => Call(leaf)
    case Not(inner) => Neg(AsRust(inner))
    case Group(inner) => Paren(AsRust(inner))
    case And(l, r) => Both(AsRust(l), AsRust(r))
    case Or(l, r) => Either(AsRust(l), AsRust(r))
  }

  lemma {:induction false} NoLooseOr(e: Expr)
    requires IsAnd(e)
    ensures OrOr !in Emit(e)
    decreases e
  {
    match e
    case And(l, r) => NoLooseOr(l); NoLooseOr(r);
    case Not(inner) =>
      assert IsNot(inner) && IsAnd(inner);
      NoLooseOr(inner);
    case _ =>
  }

  lemma {:induction false} NoLooseAnd(e: Expr)
    requires IsNot(e)
    ensures AndAnd !in Emit(e)
    decreases e
  {
    match e
    case Not(inner) => NoLooseAnd(inner);
    case _ =>
  }

  lemma LastIs(ts: seq<Token>, t: Token, i: nat)
    requires i < |ts| && ts[i] == t && t !in ts[i + 1..]
    ensures LastOf(ts, t) == Some(i)
  {
    var r := LastOf(ts, t).value;
    assert forall j :: i < j < |ts| ==> ts[j] == ts[i + 1..][j - i - 1];
    assert forall j :: r < j < |ts| ==> ts[j] == ts[r + 1..][j - r - 1];
  }

  lemma LastIsHere(a: seq<Token>, t: Token, b: seq<Token>)
    requires t !in b
    ensures LastOf(a + [t] + b, t) == Some(|a|)
    ensures (a + [t] + b)[..|a|] == a && (a + [t] + b)[|a| + 1..] == b
  {
    LastIs(a + [t] + b, t, |a|);
  }

  /** How `Read` takes apart an operator of either kind. */
  lemma ReadAround(a: seq<Token>, t: Token, b: seq<Token>)
    requires (t == OrOr && OrOr !in b) || (t == AndAnd && AndAnd !in b && OrOr !in a && OrOr !in b)
    ensures Read(a + [t] + b) == Join(Read(a), Read(b), t == OrOr)
  {
    LastIsHere(a, t, b);
    var ts := a + [t] + b;
    if t == AndAnd {
      assert OrOr !in ts;
      assert LastOf(ts, OrOr).None?;
    }
  }

  /** The grammar's levels, and what the parts of a tree are. */
  lemma Levels(e: Expr)
    requires IsOr(e)
    ensures IsNot(e) ==> IsAnd(e)
    ensures e.Or? ==> IsOr(e.left) && IsAnd(e.right) && IsOr(e.right)
    ensures e.And? ==> IsAnd(e.left) && IsOr(e.left) && IsNot(e.right) && IsAnd(e.right) && IsOr(e.right)
    ensures e.Not? ==> IsNot(e) && IsNot(e.inner) && IsOr(e.inner)
    ensures e.Group? ==> IsOr(e.inner)
  {
    match e
    case Or(l, r) => assert IsAnd(r);
    case And(l, r) =>
      assert IsAnd(e);
      assert IsNot(r);
    case Not(inner) =>
      assert IsAnd(e);
      assert IsNot(e);
      assert IsNot(inner) && IsAnd(inner);
    case Group(inner) =>
      assert IsAnd(e);
      assert IsNot(e);
    case Guard(_) =>
  }

  /** `let guard_passed = ...;` means the tree: Rust reads the emitted tokens of a
      parsed guard as the tree that was parsed. */
  lemma {:induction false} ReadsBack(e: Expr)
    requires IsOr(e)
    ensures Read(Emit(e)) == Some(AsRust(e))
    decreases e
  {
    Levels(e);
    match e
    case Or(l, r) =>
      NoLooseOr(r);
      ReadAround(Emit(l), OrOr, Emit(r));
      ReadsBack(l);
      ReadsBack(r);
    case And(l, r) =>
      NoLooseOr(l);
      NoLooseOr(r);
      NoLooseAnd(r);
      ReadAround(Emit(l), AndAnd, Emit(r));
      ReadsBack(l);
      ReadsBack(r);
    case Not(inner) =>
      ReadNot(e);
      ReadsBack(inner);
    case Group(inner) =>
      ReadOne(Parens(Emit(inner)));
      ReadsBack(inner);
    case Guard(leaf) =>
      ReadOne(Block(leaf));
  }

  lemma ReadOne(t: Token)
    requires !t.OrOr? && !t.AndAnd? && !t.Bang?
    ensures Read([t]) == match t
                         case Block(leaf) => Some(Call(leaf))
                         case Flag(b) => Some(Const(b))
                         case Parens(inside) => (match Read(inside) case None => None case Some(e) => Some(Paren(e)))
                         case _ => None
  {
    assert LastOf([t], OrOr).None? && LastOf([t], AndAnd).None?;
  }

  lemma ReadNot(e: Expr)
    requires e.Not? && IsNot(e)
    ensures Read(Emit(e)) == match Read(Emit(e.inner)) case None => None case Some(r) => Some(Neg(r))
  {
    NoLooseOr(e);
    NoLooseAnd(e);
    assert Emit(e)[1..] == Emit(e.inner);
    assert LastOf(Emit(e), OrOr).None? && LastOf(Emit(e), AndAnd).None?;
  }

  // ---- What a guard does ---------------------------------------------------------------------------

  datatype Verdict = Passed | Refused | Faulted

  /** How guard functions answer; they may depend on every call before. */
  type Answers = (Leaf, seq<Leaf>) -> Verdict

  /** Rust's evaluation: operands left to right, `&&` and `||` stop early, and
      `?` ends it at the first guard that fails. `calls` are the calls so far. */
  function Eval(e: Rust, answers: Answers, calls: seq<Leaf>): (r: (Verdict, seq<Leaf>))
    ensures calls <= r.1
    decreases e
  {
    match e
    case Call(leaf) => (answers(leaf, calls), calls + [leaf])
    case Const(b) => (if b then Passed else Refused, calls)
    case Paren(inner) => Eval(inner, answers, calls)
    case Neg(inner) =>
      var (v, after) := Eval(inner, answers, calls);
      (match v case Passed => Refused case Refused => Passed case Faulted => Faulted, after)
    case Both(l, r) =>
      var (v, after) := Eval(l, answers, calls);
      if v == Passed then Eval(r, answers, after) else (v, after)
    case Either(l, r) =>
      var (v, after) := Eval(l, answers, calls);
      if v == Refused then Eval(r, answers, after) else (v, after)
  }

  /** The formula a guard writes down. */
  predicate Truth(e: Expr, value: Leaf -> bool) {
    match e
    case Guard(leaf) => value(leaf)
    case Not(inner) => !Truth(inner, value)
    case Group(inner) => Truth(inner, value)
    case And(l, r) => Truth(l, value) && Truth(r, value)
    case Or(l, r) => Truth(l, value) || Truth(r, value)
  }

  /** The guards of a tree, left to right. */
  function Leaves(e: Expr): (r: seq<Leaf>)
    ensures r != []
  {
    match e
    case Guard(leaf) => [leaf]
    case Not(inner) => Leaves(inner)
    case Group(inner) => Leaves(inner)
    case And(l, r) => Leaves(l) + Leaves(r)
    case Or(l, r) => Leaves(l) + Leaves(r)
  }

  predicate Subsequence(a: seq<Leaf>, b: seq<Leaf>) {
    if a == [] then true
    else if b == [] then false
    else (a[0] == b[0] && Subsequence(a[1..], b[1..])) || Subsequence(a, b[1..])
  }

  lemma {:induction false} SubsequenceGrows(a: seq<Leaf>, b: seq<Leaf>, c: seq<Leaf>)
    requires Subsequence(a, b)
    ensures Subsequence(a, b + c)
    decreases |b|
  {
    if a != [] {
      assert (b + c)[1..] == b[1..] + c;
      if a[0] == b[0] && Subsequence(a[1..], b[1..]) {
        SubsequenceGrows(a[1..], b[1..], c);
      } else {
        SubsequenceGrows(a, b[1..], c);
      }
    }
  }

  lemma {:induction false} SubsequenceBehind(a: seq<Leaf>, b: seq<Leaf>, c: seq<Leaf>)
    requires Subsequence(a, c)
    ensures Subsequence(a, b + c)
    decreases |b|
  {
    if b == [] {
      assert b + c == c;
    } else {
      assert (b + c)[1..] == b[1..] + c;
      SubsequenceBehind(a, b[1..], c);
    }
  }

  lemma {:induction false} SubsequencesJoin(a: seq<Leaf>, b: seq<Leaf>, c: seq<Leaf>, d: seq<Leaf>)
    requires Subsequence(a, b) && Subsequence(c, d)
    ensures Subsequence(a + c, b + d)
    decreases |b|
  {
    if a == [] {
      assert a + c == c;
      SubsequenceBehind(c, b, d);
    } else {
      assert (b + d)[1..] == b[1..] + d && (a + c)[1..] == a[1..] + c;
      if a[0] == b[0] && Subsequence(a[1..], b[1..]) {
        SubsequencesJoin(a[1..], b[1..], c, d);
      } else {
        SubsequencesJoin(a, b[1..], c, d);
      }
    }
  }

  /** The guards that an evaluation called. */
  function CallsOf(e: Expr, answers: Answers, calls: seq<Leaf>): seq<Leaf> {
    Eval(AsRust(e), answers, calls).1[|calls|..]
  }

  /** The calls from `from` on answered as `value` says. */
  ghost predicate AnsweredAs(calls: seq<Leaf>, from: nat, answers: Answers, value: Leaf -> bool) {
    forall k :: from <= k < |calls| ==> answers(calls[k], calls[..k]) == if value(calls[k]) then Passed else Refused
  }

  lemma AnsweredSoFar(calls: seq<Leaf>, more: seq<Leaf>, from: nat, answers: Answers, value: Leaf -> bool)
    requires from <= |calls| && calls <= more && AnsweredAs(more, from, answers, value)
    ensures AnsweredAs(calls, from, answers, value) && AnsweredAs(more, |calls|, answers, value)
  {
    assert forall k :: 0 <= k < |calls| ==> calls[..k] == more[..k];
  }

  /** Guards are called in the order they are written, each at most once and at
      least one; whatever the others would have said, the verdict is the truth of
      the formula under the answers that were given. */
  lemma {:induction false} EvalIsTheFormula(e: Expr, answers: Answers, calls: seq<Leaf>, value: Leaf -> bool)
    ensures var (v, after) := Eval(AsRust(e), answers, calls);
            && |after| > |calls|
            && Subsequence(CallsOf(e, answers, calls), Leaves(e))
            && (AnsweredAs(after, |calls|, answers, value) ==> v == if Truth(e, value) then Passed else Refused)
    decreases e
  {
    var (v, after) := Eval(AsRust(e), answers, calls);
    match e
    case Guard(leaf) =>
      assert after[|calls|..] == [leaf];
      assert after[..|calls|] == calls;
    case Not(inner) => EvalIsTheFormula(inner, answers, calls, value);
    case Group(inner) => EvalIsTheFormula(inner, answers, calls, value);
    case And(l, r) => TwoOperands(e, l, r, Passed, answers, calls, value);
    case Or(l, r) => TwoOperands(e, l, r, Refused, answers, calls, value);
  }

  /** The operator's second operand is evaluated when the first gave `goOn`. */
  lemma {:induction false} TwoOperands(e: Expr, l: Expr, r: Expr, goOn: Verdict, answers: Answers,
                                       calls: seq<Leaf>, value: Leaf -> bool)
    requires (e == And(l, r) && goOn == Passed) || (e == Or(l, r) && goOn == Refused)
    ensures var (v, after) := Eval(AsRust(e), answers, calls);
            && |after| > |calls|
            && Subsequence(CallsOf(e, answers, calls), Leaves(e))
            && (AnsweredAs(after, |calls|, answers, value) ==> v == if Truth(e, value) then Passed else Refused)
    decreases e, 0
  {
    var (v1, mid) := Eval(AsRust(l), answers, calls);
    var (v, after) := Eval(AsRust(e), answers, calls);
    EvalIsTheFormula(l, answers, calls, value);
    if v1 == goOn {
      EvalIsTheFormula(r, answers, mid, value);
      assert after[|calls|..] == mid[|calls|..] + after[|mid|..];
      SubsequencesJoin(mid[|calls|..], Leaves(l), after[|mid|..], Leaves(r));
      if AnsweredAs(after, |calls|, answers, value) {
        AnsweredSoFar(mid, after, |calls|, answers, value);
      }
    } else {
      SubsequenceGrows(mid[|calls|..], Leaves(l), Leaves(r));
    }
  }

  /** What an accepted guard does where its verdict is computed on its own, as in
      the flat lowering and in `eval`: the generated expression exists and means
      the formula that was written. */
  lemma FlatGuardIsTheFormula(ts: seq<Token>, answers: Answers, calls: seq<Leaf>, value: Leaf -> bool)
    requires Parse(ts).Some?
    ensures var e := Parse(ts).value;
            && Read(Emit(e)).Some?
            && var (v, after) := Eval(Read(Emit(e)).value, answers, calls);
            && |after| > |calls|
            && Subsequence(after[|calls|..], Leaves(e))
            && (AnsweredAs(after, |calls|, answers, value) ==> v == if Truth(e, value) then Passed else Refused)
  {
    var e := Parse(ts).value;
    ParseInvertsPrint(ts, e);
    ReadsBack(e);
    EvalIsTheFormula(e, answers, calls, value);
  }

  // ---- A guard spliced into a row's condition --------------------------------------------------------

  /** The condition of a guarded row in the composite and orthogonal lowerings:
      `!handled && dispatch && ` and the guard's own tokens, without parentheses. */
  function RowCondition(handled: bool, dispatch: bool, e: Expr): seq<Token> {
    Front(handled, dispatch) + [AndAnd] + Emit(e)
  }

  function Front(handled: bool, dispatch: bool): seq<Token> {
    [Bang, Flag(handled)] + [AndAnd] + [Flag(dispatch)]
  }

  /** What the lowering is for: a row is tried only if none ran before and the policy accepts it. */
  function Intended(handled: bool, dispatch: bool, e: Expr, answers: Answers, calls: seq<Leaf>): (Verdict,
                    seq<Leaf>) {
    if handled || !dispatch then (Refused, calls) else Eval(AsRust(e), answers, calls)
  }

  /** How Rust groups the row condition: the front joins the first operand only. */
  function Under(front: Rust, e: Expr): Rust {
    match e
    case Or(l, r) => Either(Under(front, l), AsRust(r))
    case And(l, r) => Both(Under(front, l), AsRust(r))
    case _ => Both(front, AsRust(e))
  }

  function FrontRead(handled: bool, dispatch: bool): Rust {
    Both(Neg(Const(handled)), Const(dispatch))
  }

  lemma FrontReads(handled: bool, dispatch: bool)
    ensures Read(Front(handled, dispatch)) == Some(FrontRead(handled, dispatch))
  {
    ReadAround([Bang, Flag(handled)], AndAnd, [Flag(dispatch)]);
    ReadOne(Flag(handled));
    ReadOne(Flag(dispatch));
    var neg := [Bang, Flag(handled)];
    assert neg[1..] == [Flag(handled)];
    assert LastOf(neg, OrOr).None? && LastOf(neg, AndAnd).None?;
  }

  lemma {:induction false} ConditionReads(handled: bool, dispatch: bool, e: Expr)
    requires IsOr(e)
    ensures Read(RowCondition(handled, dispatch, e)) == Some(Under(FrontRead(handled, dispatch), e))
    decreases e
  {
    Levels(e);
    var front := Front(handled, dispatch);
    match e {
      case Or(l, r) =>
        NoLooseOr(r);
        assert RowCondition(handled, dispatch, e) == RowCondition(handled, dispatch, l) + [OrOr] + Emit(r);
        ReadAround(RowCondition(handled, dispatch, l), OrOr, Emit(r));
        ConditionReads(handled, dispatch, l);
        ReadsBack(r);
      case And(l, r) =>
        NoLooseOr(l);
        NoLooseOr(r);
        NoLooseAnd(r);
        assert RowCondition(handled, dispatch, e) == RowCondition(handled, dispatch, l) + [AndAnd] + Emit(r);
        ReadAround(RowCondition(handled, dispatch, l), AndAnd, Emit(r));
        ConditionReads(handled, dispatch, l);
        ReadsBack(r);
      case _ =>
        NoLooseOr(e);
        NoLooseAnd(e);
        ReadAround(front, AndAnd, Emit(e));
        FrontReads(handled, dispatch);
        ReadsBack(e);
    }
  }

  /** The operands of `||` after the first. */
  function AfterFirst(e: Expr): Rust
    requires e.Or?
  {
    if e.left.Or? then Either(AfterFirst(e.left), AsRust(e.right)) else AsRust(e.right)
  }

  /** Evaluation of the row condition: as intended while the front holds, and
      otherwise the front turns off the first operand of `||` alone. */
  lemma {:induction false} UnderEvaluates(handled: bool, dispatch: bool, e: Expr, answers: Answers, calls: seq<Leaf>)
    requires IsOr(e)
    ensures Eval(Under(FrontRead(handled, dispatch), e), answers, calls) ==
              if e.Or? && (handled || !dispatch) then Eval(AfterFirst(e), answers, calls)
              else Intended(handled, dispatch, e, answers, calls)
    decreases e
  {
    Levels(e);
    match e
    case Or(l, r) => UnderEvaluates(handled, dispatch, l, answers, calls);
    case And(l, r) => UnderEvaluates(handled, dispatch, l, answers, calls);
    case _ => FrontEvaluates(handled, dispatch, answers, calls);
  }

  lemma FrontEvaluates(handled: bool, dispatch: bool, answers: Answers, calls: seq<Leaf>)
    ensures Eval(FrontRead(handled, dispatch), answers, calls) ==
            (if !handled && dispatch then Passed else Refused, calls)
  {
    assert Eval(Neg(Const(handled)), answers, calls) == (if handled then Refused else Passed, calls);
  }

  lemma {:induction false} AfterFirstCalls(e: Expr, answers: Answers, calls: seq<Leaf>)
    requires e.Or?
    ensures |Eval(AfterFirst(e), answers, calls).1| > |calls|
    decreases e
  {
    EvalIsTheFormula(e.right, answers, calls, _ => true);
    if e.left.Or? {
      AfterFirstCalls(e.left, answers, calls);
    }
  }

  /** The spliced row condition does what it is for exactly if the guard's root
      is not `||`, or no row ran before and the policy accepts the row. */
  lemma SpliceIsFaithful(ts: seq<Token>, handled: bool, dispatch: bool, answers: Answers, calls: seq<Leaf>)
    requires Parse(ts).Some?
    ensures var e := Parse(ts).value;
            && Read(RowCondition(handled, dispatch, e)).Some?
            && (Eval(Read(RowCondition(handled, dispatch, e)).value, answers, calls)
                  == Intended(handled, dispatch, e, answers, calls)
                <==> !e.Or? || (!handled && dispatch))
  {
    var e := Parse(ts).value;
    ParseInvertsPrint(ts, e);
    ConditionReads(handled, dispatch, e);
    UnderEvaluates(handled, dispatch, e, answers, calls);
    if e.Or? {
      AfterFirstCalls(e, answers, calls);
    }
  }

  function Agreeing(leaf: Leaf, calls: seq<Leaf>): Verdict {
    Passed
  }

  /** With `a || b` a second row runs after the first: `b` alone lets it pass. */
  lemma HandledRowRunsAgain(dispatch: bool)
    ensures var ts := [Ident("a"), OrOr, Ident("b")];
            && Parse(ts).Some?
            && Read(RowCondition(true, dispatch, Parse(ts).value)).Some?
            && Eval(Read(RowCondition(true, dispatch, Parse(ts).value)).value, Agreeing, [])
               == (Passed, [Leaf("b", false)])
  {
    var e := Or(Guard(Leaf("a", false)), Guard(Leaf("b", false)));
    assert Print(e) == [Ident("a"), OrOr, Ident("b")];
    ParseInvertsPrint(Print(e), e);
    ConditionReads(true, dispatch, e);
    UnderEvaluates(true, dispatch, e, Agreeing, []);
    assert AfterFirst(e) == Call(Leaf("b", false));
    assert [] + [Leaf("b", false)] == [Leaf("b", false)];
  }

  // ---- Visiting ------------------------------------------------------------------------------------------

  function Reversed(s: seq<Leaf>): (r: seq<Leaf>)
    ensures |r| == |s|
  {
    seq(|s|, i requires 0 <= i < |s| => s[|s| - 1 - i])
  }

  lemma ReversedJoins(a: seq<Leaf>, b: seq<Leaf>)
    ensures Reversed(a + b) == Reversed(b) + Reversed(a)
  {
  }

  function Nodes(e: Expr): nat {
    match e
    case Guard(_) => 1
    case Not(inner) => 1 + Nodes(inner)
    case Group(inner) => 1 + Nodes(inner)
    case And(l, r) => 1 + Nodes(l) + Nodes(r)
    case Or(l, r) => 1 + Nodes(l) + Nodes(r)
  }

  /** What the stack, whose top is its last element, still visits. */
  function ToVisit(stack: seq<Expr>): seq<Leaf> {
    if stack == [] then []
    else Reversed(Leaves(stack[|stack| - 1])) + ToVisit(stack[..|stack| - 1])
  }

  function NodesOn(stack: seq<Expr>): nat {
    if stack == [] then 0 else Nodes(stack[|stack| - 1]) + NodesOn(stack[..|stack| - 1])
  }

  lemma Pushed(stack: seq<Expr>, e: Expr)
    ensures ToVisit(stack + [e]) == Reversed(Leaves(e)) + ToVisit(stack)
    ensures NodesOn(stack + [e]) == Nodes(e) + NodesOn(stack)
  {
    assert (stack + [e])[..|stack|] == stack;
  }

  lemma PushedTwo(stack: seq<Expr>, l: Expr, r: Expr)
    ensures ToVisit(stack + [l, r]) == Reversed(Leaves(l) + Leaves(r)) + ToVisit(stack)
    ensures NodesOn(stack + [l, r]) == Nodes(l) + Nodes(r) + NodesOn(stack)
  {
    Pushed(stack, l);
    Pushed(stack + [l], r);
    assert stack + [l, r] == stack + [l] + [r];
    ReversedJoins(Leaves(l), Leaves(r));
  }

  /** `visit_guards`: the leaves in exact reverse order, up to the first that the
      visitor refuses; `ok` is false if it refused the last one visited. */
  method VisitGuards(e: Expr, accepts: Leaf -> bool) returns (visited: seq<Leaf>, ok: bool)
    ensures visited <= Reversed(Leaves(e))
    ensures ok ==> visited == Reversed(Leaves(e)) && forall i :: 0 <= i < |visited| ==> accepts(visited[i])
    ensures !ok ==> visited != [] && !accepts(visited[|visited| - 1])
                    && forall i :: 0 <= i < |visited| - 1 ==> accepts(visited[i])
  {
    var stack := [e];
    visited := [];
    Pushed([], e);
    assert [] + [e] == stack;
    while stack != []
      invariant visited + ToVisit(stack) == Reversed(Leaves(e))
      invariant forall i :: 0 <= i < |visited| ==> accepts(visited[i])
      decreases NodesOn(stack)
    {
      var node := stack[|stack| - 1];
      stack := stack[..|stack| - 1];
      match node {
        case Guard(leaf) =>
          assert Reversed([leaf]) == [leaf];
          visited := visited + [leaf];
          if !accepts(leaf) {
            return visited, false;
          }
        case Not(inner) =>
          Pushed(stack, inner);
          stack := stack + [inner];
        case Group(inner) =>
          Pushed(stack, inner);
          stack := stack + [inner];
        case And(l, r) =>
          PushedTwo(stack, l, r);
          stack := stack + [l, r];
        case Or(l, r) =>
          PushedTwo(stack, l, r);
          stack := stack + [l, r];
      }
    }
    return visited, true;
  }
}

/** The parser as it is written: four functions that move along one input. */
module GuardParser {
  import opened Prelude
  import opened Guards

  class Input {
    var rest: seq<Token>

    constructor (tokens: seq<Token>)
      ensures rest == tokens
    {
      rest := tokens;
    }

    /** What a parsing method leaves behind agrees with what the function `spec` says. */
    ghost predicate Agrees(spec: Parsed, e: Option<Expr>)
      reads this
    {
      match spec
      case None => e.None?
      case Some((want, after)) => e == Some(want) && rest == after
    }

    method ParseOr() returns (e: Option<Expr>)
      modifies this
      ensures Agrees(Guards.ParseOr(old(rest)), e)
      decreases Weight(rest), 4
    {
      e := ParseAnd();
      if e.None? {
        return None;
      }
      while StartsWith(rest, OrOr)
        invariant e.Some? && OrTail(e.value, rest) == Guards.ParseOr(old(rest))
        invariant Weight(rest) < Weight(old(rest))
        decreases Weight(rest)
      {
        rest := rest[1..];
        var right := ParseAnd();
        if right.None? {
          return None;
        }
        e := Some(Or(e.value, right.value));
      }
    }

    method ParseAnd() returns (e: Option<Expr>)
      modifies this
      ensures Agrees(Guards.ParseAnd(old(rest)), e)
      decreases Weight(rest), 3
    {
      e := ParseNot();
      if e.None? {
        return None;
      }
      while StartsWith(rest, AndAnd)
        invariant e.Some? && AndTail(e.value, rest) == Guards.ParseAnd(old(rest))
        invariant Weight(rest) < Weight(old(rest))
        decreases Weight(rest)
      {
        rest := rest[1..];
        var right := ParseNot();
        if right.None? {
          return None;
        }
        e := Some(And(e.value, right.value));
      }
    }

    method ParseNot() returns (e: Option<Expr>)
      modifies this
      ensures Agrees(Guards.ParseNot(old(rest)), e)
      decreases Weight(rest), 2
    {
      if StartsWith(rest, Bang) {
        rest := rest[1..];
        var inner := ParsePrimary();
        return if inner.None? then None else Some(Not(inner.value));
      }
      e := ParsePrimary();
    }

    method ParsePrimary() returns (e: Option<Expr>)
      modifies this
      ensures Agrees(Guards.ParsePrimary(old(rest)), e)
      decreases Weight(rest), 1
    {
      if rest == [] {
        return None;
      }
      var first := rest[0];
      rest := rest[1..];
      match first {
        case Parens(inside) =>
          var content := new Input(inside);
          var inner := content.ParseOr();
          return if inner.Some? && content.rest == [] then Some(Group(inner.value)) else None;
        case Async =>
          if rest == [] || !rest[0].Ident? {
            return None;
          }
          e := Some(Guard(Leaf(rest[0].name, true)));
          rest := rest[1..];
        case Ident(name) => return Some(Guard(Leaf(name, false)));
        case _ => return None;
      }
    }
  }
}
