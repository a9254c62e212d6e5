/** The constant evaluator of the configuration documentation generator.

    The evaluator follows references to named constants and keeps one set of the
    names it has followed, which it never unwinds. Its reference here is the
    unfolding of an expression: the tree of references one follows to value it.
*/
module ConstEval {
  import opened Prelude

  datatype Expr =
    | Lit(text: string, kind: nat)
    | Paren(x: Expr)
    | Ident(name: string)
    | Unary(op: string, x: Expr)
    | Binary(op: string, x: Expr, y: Expr)
    | Call(args: seq<Expr>)
    | Other

  /** The constant arithmetic library; amount is None on a value that is no unsigned 64-bit integer. */
  datatype Ops<!V> = Ops(
    lit: (string, nat) -> V, bool_: bool -> V,
    unary: (string, V) -> V, binary: (V, string, V) -> V,
    amount: V -> Option<nat>, shift: (V, string, nat) -> V)

  type Consts = map<string, Expr>

  function Combine<V>(ops: Ops<V>, op: string, x: Option<V>, y: Option<V>): Option<V> {
    if x.None? || y.None? then None
    else if op == "<<" || op == ">>" then
      var s := ops.amount(y.value);
      if s.None? then None else Some(ops.shift(x.value, op, s.value))
    else Some(ops.binary(x.value, op, y.value))
  }

  function Apply<V>(ops: Ops<V>, op: string, x: Option<V>): Option<V> {
    if x.None? then None else Some(ops.unary(op, x.value))
  }

  predicate Boolean(name: string) { name == "true" || name == "false" }

  /** The value and the names followed so far. */
  function Eval<V>(ops: Ops<V>, consts: Consts, e: Expr, seen: set<string>): (r: (Option<V>, set<string>))
    ensures seen <= r.1 <= seen + consts.Keys
    decreases consts.Keys - seen, e
  {
    match e
    case Lit(text, kind) => (Some(ops.lit(text, kind)), seen)
    case Paren(x) => Eval(ops, consts, x, seen)
    case Ident(name) =>
      if Boolean(name) then (Some(ops.bool_(name == "true")), seen)
      else if name in seen || name !in consts then (None, seen)
      else Eval(ops, consts, consts[name], seen + {name})
    case Unary(op, x) =>
      var (v, seen') := Eval(ops, consts, x, seen);
      (Apply(ops, op, v), seen')
    case Binary(op, x, y) =>
      var (v, seen1) := Eval(ops, consts, x, seen);
      var (w, seen2) := Eval(ops, consts, y, seen1);
      (Combine(ops, op, v, w), seen2)
    case Call(args) => if |args| == 1 then Eval(ops, consts, args[0], seen) else (None, seen)
    case Other => (None, seen)
  }

  // --------------------------------------------------------------- unfolding

  datatype Tree = Leaf | Node(child: Tree) | Named(name: string, body: Tree) | Pair(left: Tree, right: Tree)

  /** The value of e when its references are followed as the tree says; None when the
      tree is not e's unfolding or a shift amount is refused. */
  ghost function Value<V>(ops: Ops<V>, consts: Consts, e: Expr, t: Tree): Option<V>
    decreases t
  {
    match (e, t)
    case (Lit(text, kind), Leaf) => Some(ops.lit(text, kind))
    case (Paren(x), Node(d)) => Value(ops, consts, x, d)
    case (Ident(name), Leaf) => if Boolean(name) then Some(ops.bool_(name == "true")) else None
    case (Ident(name), Named(n, d)) =>
      if n == name && !Boolean(name) && name in consts then Value(ops, consts, consts[name], d) else None
    case (Unary(op, x), Node(d)) => Apply(ops, op, Value(ops, consts, x, d))
    case (Binary(op, x, y), Pair(l, r)) => Combine(ops, op, Value(ops, consts, x, l), Value(ops, consts, y, r))
    case (Call(args), Node(d)) => if |args| == 1 then Value(ops, consts, args[0], d) else None
    case _ => None
  }

  function Names(t: Tree): set<string> {
    match t
    case Leaf => {}
    case Node(d) => Names(d)
    case Named(name, d) => {name} + Names(d)
    case Pair(l, r) => Names(l) + Names(r)
  }

  /** No name is followed twice anywhere in the tree. */
  predicate Linear(t: Tree) {
    match t
    case Leaf => true
    case Node(d) => Linear(d)
    case Named(name, d) => name !in Names(d) && Linear(d)
    case Pair(l, r) => Linear(l) && Linear(r) && Names(l) !! Names(r)
  }

  /** An expression has at most one unfolding, so at most one value. */
  lemma {:induction false} UnfoldingIsUnique<V>(ops: Ops<V>, consts: Consts, e: Expr, t: Tree, t': Tree)
    requires Value(ops, consts, e, t).Some? && Value(ops, consts, e, t').Some?
    ensures t == t'
    decreases t
  {
    match e
    case Lit(_, _) =>
    case Paren(x) => UnfoldingIsUnique(ops, consts, x, t.child, t'.child);
    case Ident(name) => if !Boolean(name) { UnfoldingIsUnique(ops, consts, consts[name], t.body, t'.body); }
    case Unary(_, x) => UnfoldingIsUnique(ops, consts, x, t.child, t'.child);
    case Binary(_, x, y) =>
      UnfoldingIsUnique(ops, consts, x, t.left, t'.left);
      UnfoldingIsUnique(ops, consts, y, t.right, t'.right);
    case Call(args) => UnfoldingIsUnique(ops, consts, args[0], t.child, t'.child);
  }

  /** A linear unfolding that avoids the names already followed is what the evaluator walks. */
  lemma {:induction false} LinearIsEvaluated<V>(ops: Ops<V>, consts: Consts, e: Expr, t: Tree, seen: set<string>)
    requires Value(ops, consts, e, t).Some? && Linear(t) && Names(t) !! seen
    ensures Eval(ops, consts, e, seen) == (Value(ops, consts, e, t), seen + Names(t))
    decreases t
  {
    match e
    case Lit(_, _) => assert seen + Names(t) == seen;
    case Paren(x) => LinearIsEvaluated(ops, consts, x, t.child, seen);
    case Ident(name) =>
      if Boolean(name) {
        assert seen + Names(t) == seen;
      } else {
        assert name in Names(t);
        LinearIsEvaluated(ops, consts, consts[name], t.body, seen + {name});
        assert seen + {name} + Names(t.body) == seen + Names(t);
      }
    case Unary(_, x) => LinearIsEvaluated(ops, consts, x, t.child, seen);
    case Binary(_, x, y) =>
      LinearIsEvaluated(ops, consts, x, t.left, seen);
      LinearIsEvaluated(ops, consts, y, t.right, seen + Names(t.left));
      assert seen + Names(t.left) + Names(t.right) == seen + Names(t);
    case Call(args) => LinearIsEvaluated(ops, consts, args[0], t.child, seen);
  }

  /** Whatever the evaluator values, it values by a linear unfolding of unfollowed names. */
  lemma {:induction false} EvaluatedIsLinear<V>(ops: Ops<V>, consts: Consts, e: Expr, seen: set<string>)
      returns (t: Tree)
    requires Eval(ops, consts, e, seen).0.Some?
    ensures Value(ops, consts, e, t) == Eval(ops, consts, e, seen).0
    ensures Linear(t) && Names(t) !! seen && Eval(ops, consts, e, seen).1 == seen + Names(t)
    decreases consts.Keys - seen, e
  {
    match e {
      case Lit(_, _) => t := Leaf;
      case Paren(x) =>
        var d := EvaluatedIsLinear(ops, consts, x, seen);
        t := Node(d);
      case Ident(name) =>
        if Boolean(name) {
          t := Leaf;
        } else {
          var d := EvaluatedIsLinear(ops, consts, consts[name], seen + {name});
          t := Named(name, d);
          assert seen + {name} + Names(d) == seen + Names(t);
        }
      case Unary(_, x) =>
        var d := EvaluatedIsLinear(ops, consts, x, seen);
        t := Node(d);
      case Binary(_, x, y) =>
        var l := EvaluatedIsLinear(ops, consts, x, seen);
        var r := EvaluatedIsLinear(ops, consts, y, Eval(ops, consts, x, seen).1);
        t := Pair(l, r);
        assert seen + Names(l) + Names(r) == seen + Names(t);
      case Call(args) =>
        var d := EvaluatedIsLinear(ops, consts, args[0], seen);
        t := Node(d);
    }
  }

  /** The evaluator yields v exactly when v is the value of a linear unfolding. */
  lemma EvalIsLinearValue<V>(ops: Ops<V>, consts: Consts, e: Expr, v: V)
    ensures Eval(ops, consts, e, {}).0 == Some(v) <==>
              exists t :: Value(ops, consts, e, t) == Some(v) && Linear(t)
  {
    if Eval(ops, consts, e, {}).0 == Some(v) {
      var t := EvaluatedIsLinear(ops, consts, e, {});
      assert Value(ops, consts, e, t) == Some(v) && Linear(t);
    }
    forall t | Value(ops, consts, e, t) == Some(v) && Linear(t)
      ensures Eval(ops, consts, e, {}).0 == Some(v)
    {
      LinearIsEvaluated(ops, consts, e, t, {});
    }
  }

  /** An expression that has a value is resolved to it exactly when its unfolding
      follows no name twice, and is reported unresolved otherwise. */
  lemma ResolvedIffLinear<V>(ops: Ops<V>, consts: Consts, e: Expr, t: Tree)
    requires Value(ops, consts, e, t).Some?
    ensures Eval(ops, consts, e, {}).0 == if Linear(t) then Value(ops, consts, e, t) else None
  {
    if Linear(t) {
      LinearIsEvaluated(ops, consts, e, t, {});
    } else if Eval(ops, consts, e, {}).0.Some? {
      var t' := EvaluatedIsLinear(ops, consts, e, {});
      UnfoldingIsUnique(ops, consts, e, t, t');
    }
  }

  /** So a constant named twice is lost though nothing is cyclic. */
  lemma SharedConstantIsLost<V>(ops: Ops<V>)
    ensures var consts := map["A" := Lit("1", 0)];
            var e := Binary("+", Ident("A"), Ident("A"));
            var t := Pair(Named("A", Leaf), Named("A", Leaf));
            && Value(ops, consts, e, t) == Some(ops.binary(ops.lit("1", 0), "+", ops.lit("1", 0)))
            && Eval(ops, consts, e, {}).0 == None
  {
  }

  // ---------------------------------------------------------------- in place

  /** The evaluator with the shared map it marks. */
  class Evaluator<!V> {
    const ops: Ops<V>
    const consts: Consts
    var seen: set<string>

    constructor (ops: Ops<V>, consts: Consts)
      ensures this.ops == ops && this.consts == consts && seen == {}
    {
      this.ops, this.consts, seen := ops, consts, {};
    }

    method EvalConst(e: Expr) returns (r: Option<V>)
      modifies this`seen
      ensures (r, seen) == Eval(ops, consts, e, old(seen))
      decreases consts.Keys - seen, e
    {
      match e {
        case Lit(text, kind) => r := Some(ops.lit(text, kind));
        case Paren(x) => r := EvalConst(x);
        case Ident(name) =>
          if name == "true" {
            return Some(ops.bool_(true));
          }
          if name == "false" {
            return Some(ops.bool_(false));
          }
          if name in seen {
            return None;
          }
          if name in consts {
            seen := seen + {name};
            r := EvalConst(consts[name]);
          } else {
            r := None;
          }
        case Unary(op, x) =>
          var v := EvalConst(x);
          if v.None? {
            return None;
          }
          r := Some(ops.unary(op, v.value));
        case Binary(op, x, y) =>
          var v := EvalConst(x);
          var w := EvalConst(y);
          if v.None? || w.None? {
            return None;
          }
          if op == "<<" || op == ">>" {
            var s := ops.amount(w.value);
            if s.None? {
              return None;
            }
            return Some(ops.shift(v.value, op, s.value));
          }
          r := Some(ops.binary(v.value, op, w.value));
        case Call(args) =>
          if |args| == 1 {
            r := EvalConst(args[0]);
          } else {
            r := None;
          }
        case Other => r := None;
      }
    }
  }
}
