// Which way IF goes and what a WHILE does with its body, each told by the other constructs
// (internal/extensions/procedures/control/exec.go).
module Branches {
  import opened Option
  import opened Fold
  import opened Control
  import opened ControlLaws

  // ---------- The test ----------

  // The test asks the engine for 1 where the condition holds and 0 where it does not.
  lemma TestMeansOne<W>(h: Host<W>, c: Config<W>, cur: Option<ErrorInfo>, cond: string, n: int)
    requires var asked := h.exec(c.world, "SELECT CASE WHEN (" + h.subst(c.vars, cond) + ") THEN 1 ELSE 0 END", cur);
      asked.1 == Answer([[Int(n)]]) && h.toInt(Int(n)) == n && n in {0, 1}
    ensures EvalBool(h, c, cur, cond).1 == Ok(n == 1)
  {
  }

  // ---------- IF ----------

  // WHILE cond RETURN tells what the condition answers: it stops at once where the condition is false, and returns
  // where it is true.
  function Probe<W>(h: Host<W>, cond: string, c: Config<W>, cur: Option<ErrorInfo>): Ending<W> {
    Big(h, While(cond, Return), c, cur)
  }

  // IF a ELSE b ends as a where the loop returns, as b where it stops at once, each from where the test left off, and
  // fails as it fails.
  lemma IfElseExactly<W>(h: Host<W>, cond: string, a: Stmt, b: Stmt, c: Config<W>, cur: Option<ErrorInfo>)
    ensures var probe := Probe(h, cond, c, cur);
      Big(h, If(cond, a, Some(b)), c, cur) ==
        if probe.Fails? then probe
        else if probe.flow == Returning then Big(h, a, probe.c, cur)
        else Big(h, b, probe.c, cur)
    ensures var probe := Probe(h, cond, c, cur);
      probe.Done? ==> probe.flow in {Next, Returning} && probe.out == []
  {
    hide EvalBool, BigLoop;
    LoopTurn(h, cond, Return, 0, c, cur);
    assert Big(h, Return, EvalBool(h, c, cur, cond).0, cur) == Done(Returning, EvalBool(h, c, cur, cond).0, []);
  }

  // Without ELSE, as with an ELSE that does nothing.
  lemma IfAlone<W>(h: Host<W>, cond: string, a: Stmt, c: Config<W>, cur: Option<ErrorInfo>)
    ensures Big(h, If(cond, a, None), c, cur) == Big(h, If(cond, a, Some(Block([]))), c, cur)
  {
    hide EvalBool;
    assert forall c1: Config<W> :: Big(h, Block([]), c1, cur) == Done(Next, c1, []);
  }

  // ---------- WHILE as repeated IF ----------

  // The loop makes n full turns and no more.
  predicate EndsAfter<W>(h: Host<W>, cond: string, body: Stmt, n: nat, c: Config<W>, cur: Option<ErrorInfo>) {
    Turns(h, cond, body, n, c, cur).Some? && Turns(h, cond, body, n + 1, c, cur).None?
  }

  lemma EveryTest(b: Result<bool>)
    ensures b.Err? || b == Ok(false) || b == Ok(true)
  {
    match b
    case Err(_) =>
    case Ok(t) => assert t == true || t == false;
  }

  lemma EveryEnding<W>(r: Ending<W>)
    ensures r.Fails? || r.flow in {Next, Continuing, Breaking, Returning}
  {
    match r
    case Fails(_, _) =>
    case Done(f, _, _) => assert f.Next? || f.Continuing? || f.Breaking? || f.Returning?;
  }

  // A turn that is not full ends the loop, however many went before.
  lemma LastTurn<W>(h: Host<W>, cond: string, body: Stmt, i: nat, j: nat, c: Config<W>, cur: Option<ErrorInfo>)
    requires Turns(h, cond, body, 1, c, cur).None? && i < MAX_ITERATIONS && j < MAX_ITERATIONS
    ensures BigLoop(h, cond, body, i, c, cur) == BigLoop(h, cond, body, j, c, cur)
  {
    hide Big, EvalBool, BigLoop;
    LoopTurn(h, cond, body, i, c, cur);
    LoopTurn(h, cond, body, j, c, cur);
    FullTurn(h, cond, body, c, cur);
    var (c1, b) := EvalBool(h, c, cur, cond);
    var r := Big(h, body, c1, cur);
    EveryTest(b);
    EveryEnding(r);
  }

  lemma FullTurn<W>(h: Host<W>, cond: string, body: Stmt, c: Config<W>, cur: Option<ErrorInfo>)
    ensures var (c1, b) := EvalBool(h, c, cur, cond);
      var r := Big(h, body, c1, cur);
      Turns(h, cond, body, 1, c, cur).Some? <==> b == Ok(true) && r.Done? && r.flow in {Next, Continuing}
  {
    hide Big, EvalBool;
  }

  // n full turns and one more are n + 1.
  lemma {:induction false} TurnsThenOne<W>(h: Host<W>, cond: string, body: Stmt, n: nat, c: Config<W>,
      cur: Option<ErrorInfo>)
    requires Turns(h, cond, body, n, c, cur).Some?
    ensures var t := Turns(h, cond, body, n, c, cur).value;
      Turns(h, cond, body, n + 1, c, cur).Some? <==> Turns(h, cond, body, 1, t.0, cur).Some?
    decreases n
  {
    hide Big, EvalBool;
    if n > 0 {
      var c1 := EvalBool(h, c, cur, cond).0;
      var r := Big(h, body, c1, cur);
      TurnsThenOne(h, cond, body, n - 1, r.c, cur);
    }
  }

  // Where the loop is counted from makes no difference below the limit.
  lemma CountFromAnywhere<W>(h: Host<W>, cond: string, body: Stmt, n: nat, i: nat, j: nat, c: Config<W>,
      cur: Option<ErrorInfo>)
    requires EndsAfter(h, cond, body, n, c, cur) && i + n < MAX_ITERATIONS && j + n < MAX_ITERATIONS
    ensures BigLoop(h, cond, body, i, c, cur) == BigLoop(h, cond, body, j, c, cur)
  {
    hide Big, EvalBool, BigLoop, Turns;
    TurnsThenLoop(h, cond, body, n, i, c, cur);
    TurnsThenLoop(h, cond, body, n, j, c, cur);
    TurnsThenOne(h, cond, body, n, c, cur);
    LastTurn(h, cond, body, i + n, j + n, Turns(h, cond, body, n, c, cur).value.0, cur);
  }

  // WHILE cond s ends as IF cond BEGIN s; WHILE cond s END does, for a body without BREAK and CONTINUE of its own and
  // a loop that ends below the limit.
  lemma WhileIsIf<W>(h: Host<W>, cond: string, s: Stmt, n: nat, c: Config<W>, cur: Option<ErrorInfo>)
    requires !Loose(s, Breaking) && !Loose(s, Continuing)
    requires EndsAfter(h, cond, s, n, c, cur) && n < MAX_ITERATIONS
    ensures Big(h, While(cond, s), c, cur) == Big(h, If(cond, Block([s, While(cond, s)]), None), c, cur)
  {
    hide EvalBool, BigLoop, Turns, Loose;
    LoopTurn(h, cond, s, 0, c, cur);
    var (c1, b) := EvalBool(h, c, cur, cond);
    var r := Big(h, s, c1, cur);
    JumpsStayInside(h, s, c1, cur, Breaking);
    JumpsStayInside(h, s, c1, cur, Continuing);
    BodyThenLoop(h, s, cond, c1, cur);
    if b == Ok(true) && r.Done? && r.flow == Next {
      FirstTurn(h, cond, s, n, c, cur);
      CountFromAnywhere(h, cond, s, n - 1, 0, 1, r.c, cur);
    }
  }

  lemma FirstTurn<W>(h: Host<W>, cond: string, s: Stmt, n: nat, c: Config<W>, cur: Option<ErrorInfo>)
    requires EndsAfter(h, cond, s, n, c, cur)
    requires EvalBool(h, c, cur, cond).1 == Ok(true)
    requires var r := Big(h, s, EvalBool(h, c, cur, cond).0, cur); r.Done? && r.flow == Next
    ensures n > 0 && EndsAfter(h, cond, s, n - 1, Big(h, s, EvalBool(h, c, cur, cond).0, cur).c, cur)
  {
    hide Big, EvalBool;
    FullTurn(h, cond, s, c, cur);
  }

  lemma BodyThenLoop<W>(h: Host<W>, s: Stmt, cond: string, c: Config<W>, cur: Option<ErrorInfo>)
    ensures var r := Big(h, s, c, cur);
      Big(h, Block([s, While(cond, s)]), c, cur) ==
        if r.Done? && r.flow == Next then Prepend(r.out, BigLoop(h, cond, s, 0, r.c, cur)) else r
  {
    hide BigLoop, EvalBool;
    var both := [s, While(cond, s)];
    assert both[0..] == both && both[1..] == [While(cond, s)] && both[2..] == [];
    BlockTurn(h, both, 0, c, cur);
    var r := Big(h, s, c, cur);
    BlockTurn(h, both, 1, r.c, cur);
    var l := BigLoop(h, cond, s, 0, r.c, cur);
    BlockOver(h, l.c, cur);
    assert l.Done? ==> l.out + [] == l.out;
    assert Big(h, Block(both), c, cur) == BigBlock(h, both, c, cur);
  }

  // ---------- BREAK, CONTINUE and RETURN in a body ----------

  lemma UpToJump<W>(h: Host<W>, a: seq<Stmt>, jump: Stmt, b: seq<Stmt>, c: Config<W>, cur: Option<ErrorInfo>)
    requires jump in {Break, Continue, Return}
    ensures var r := Big(h, Block(a), c, cur);
      Big(h, Block(a + [jump] + b), c, cur) ==
        if r.Done? && r.flow == Next
        then Done(if jump == Break then Breaking else if jump == Continue then Continuing else Returning, r.c, r.out)
        else r
  {
    hide BigBlock;
    assert a + [jump] + b == a + ([jump] + b);
    Sequence(h, a, [jump] + b, c, cur);
    var r := BigBlock(h, a, c, cur);
    assert ([jump] + b)[0..] == [jump] + b;
    BlockTurn(h, [jump] + b, 0, r.c, cur);
    assert r.Done? ==> r.out + [] == r.out;
  }

  // CONTINUE skips what is left of the body and nothing else.
  lemma ContinueSkips<W>(h: Host<W>, cond: string, a: seq<Stmt>, b: seq<Stmt>, c: Config<W>, cur: Option<ErrorInfo>)
    ensures Big(h, While(cond, Block(a + [Continue] + b)), c, cur) == Big(h, While(cond, Block(a)), c, cur)
  {
    hide Big, BigLoop;
    SameTurns(h, cond, a, b, 0, c, cur);
    WhileIsLoop(h, cond, Block(a + [Continue] + b), c, cur);
    WhileIsLoop(h, cond, Block(a), c, cur);
  }

  lemma WhileIsLoop<W>(h: Host<W>, cond: string, body: Stmt, c: Config<W>, cur: Option<ErrorInfo>)
    ensures Big(h, While(cond, body), c, cur) == BigLoop(h, cond, body, 0, c, cur)
  {
    hide BigLoop;
  }

  lemma {:induction false} SameTurns<W>(h: Host<W>, cond: string, a: seq<Stmt>, b: seq<Stmt>, iter: nat, c: Config<W>,
      cur: Option<ErrorInfo>)
    ensures BigLoop(h, cond, Block(a + [Continue] + b), iter, c, cur) == BigLoop(h, cond, Block(a), iter, c, cur)
    decreases MAX_ITERATIONS - iter
  {
    hide Big, BigLoop, EvalBool;
    LoopTurn(h, cond, Block(a + [Continue] + b), iter, c, cur);
    LoopTurn(h, cond, Block(a), iter, c, cur);
    if iter < MAX_ITERATIONS {
      var (c1, t) := EvalBool(h, c, cur, cond);
      UpToJump(h, a, Continue, b, c1, cur);
      var r := Big(h, Block(a), c1, cur);
      EveryTest(t);
      EveryEnding(r);
      SameTurns(h, cond, a, b, iter + 1, r.c, cur);
    }
  }

  // BREAK ends the loop: where the part in front of it runs through, the loop is that part under IF.
  lemma BreakEnds<W>(h: Host<W>, cond: string, a: seq<Stmt>, b: seq<Stmt>, c: Config<W>, cur: Option<ErrorInfo>)
    requires !AnyLoose(a, Breaking) && !AnyLoose(a, Continuing)
    ensures Big(h, While(cond, Block(a + [Break] + b)), c, cur) == Big(h, If(cond, Block(a), None), c, cur)
  {
    hide BigLoop, EvalBool, BigBlock;
    LoopTurn(h, cond, Block(a + [Break] + b), 0, c, cur);
    var c1 := EvalBool(h, c, cur, cond).0;
    UpToJump(h, a, Break, b, c1, cur);
    BlockStaysInside(h, a, c1, cur, Breaking);
    BlockStaysInside(h, a, c1, cur, Continuing);
  }

  // RETURN leaves the loop and whatever holds it.
  lemma ReturnLeaves<W>(h: Host<W>, cond: string, a: seq<Stmt>, b: seq<Stmt>, rest: seq<Stmt>, c: Config<W>,
      cur: Option<ErrorInfo>)
    requires !AnyLoose(a, Breaking) && !AnyLoose(a, Continuing)
    ensures Big(h, Block([While(cond, Block(a + [Return] + b))] + rest), c, cur) ==
      Big(h, If(cond, Block(a + [Return]), Some(Block(rest))), c, cur)
  {
    hide BigLoop, EvalBool, BigBlock;
    var loop := While(cond, Block(a + [Return] + b));
    LoopTurn(h, cond, Block(a + [Return] + b), 0, c, cur);
    var c1 := EvalBool(h, c, cur, cond).0;
    UpToJump(h, a, Return, b, c1, cur);
    UpToJump(h, a, Return, [], c1, cur);
    assert a + [Return] + [] == a + [Return];
    BlockStaysInside(h, a, c1, cur, Breaking);
    BlockStaysInside(h, a, c1, cur, Continuing);
    var all := [loop] + rest;
    assert all[0..] == all && all[1..] == rest;
    BlockTurn(h, all, 0, c, cur);
    PrependNothing(BigBlock(h, rest, c1, cur));
  }

  // ---------- TRY, THROW, RAISERROR, DECLARE ----------

  // A body that does not fail is all there is to a TRY.
  lemma TryPasses<W>(h: Host<W>, body: Stmt, handler: Stmt, c: Config<W>, cur: Option<ErrorInfo>)
    requires Big(h, body, c, cur).Done?
    ensures Big(h, Try(body, handler), c, cur) == Big(h, body, c, cur)
  {
  }

  // THROW without arguments in CATCH raises what the body raised.
  lemma ThrowRaisesAgain<W>(h: Host<W>, body: Stmt, c: Config<W>, cur: Option<ErrorInfo>)
    requires Big(h, body, c, cur).Fails?
    ensures var r := Big(h, body, c, cur);
      Big(h, Try(body, Throw([])), c, cur) == Fails(Raised(InfoOf(r.error)), r.c)
    ensures var r := Big(h, body, c, cur); r.error.Raised? ==> Big(h, Try(body, Throw([])), c, cur) == r
  {
    TryFails(h, body, Throw([]), c, cur);
  }

  // DECLARE declares its variables one after the other.
  lemma {:induction false} DeclareInTurn<W>(h: Host<W>, a: seq<Var>, b: seq<Var>, c: Config<W>, cur: Option<ErrorInfo>)
    ensures Big(h, Declare(a + b), c, cur) == Big(h, Block([Declare(a), Declare(b)]), c, cur)
  {
    hide EvalScalar;
    var both := [Declare(a), Declare(b)];
    assert both[0..] == both && both[1..] == [Declare(b)] && both[2..] == [];
    BlockTurn(h, both, 0, c, cur);
    var r := BigDeclare(h, a, c, cur);
    DeclareStays(h, a, c, cur);
    DeclareStays(h, b, r.c, cur);
    BlockTurn(h, both, 1, r.c, cur);
    var q := BigDeclare(h, b, r.c, cur);
    BlockOver(h, q.c, cur);
    DeclareOut(h, a, c, cur);
    DeclareOut(h, b, r.c, cur);
    Declares(h, a, b, c, cur);
    assert Big(h, Block(both), c, cur) == BigBlock(h, both, c, cur);
  }

  lemma {:induction false} DeclareOut<W>(h: Host<W>, vars: seq<Var>, c: Config<W>, cur: Option<ErrorInfo>)
    ensures BigDeclare(h, vars, c, cur).Done? ==> BigDeclare(h, vars, c, cur).out == []
  {
    hide EvalScalar;
    if vars != [] {
      var v := vars[0];
      var c0 := c.(types := c.types[v.name := v.typ]);
      if v.init == "" {
        DeclareOut(h, vars[1..], c0.(vars := c0.vars[v.name := h.nullOf(v.typ)]), cur);
      } else {
        var (c1, x) := EvalScalar(h, c0, cur, h.declared(v.init, v.typ));
        if x.Ok? { DeclareOut(h, vars[1..], c1.(vars := c1.vars[v.name := h.lit(x.value)]), cur); }
      }
    }
  }

  lemma {:induction false} Declares<W>(h: Host<W>, a: seq<Var>, b: seq<Var>, c: Config<W>, cur: Option<ErrorInfo>)
    ensures var r := BigDeclare(h, a, c, cur);
      BigDeclare(h, a + b, c, cur) == if r.Done? then BigDeclare(h, b, r.c, cur) else r
  {
    hide EvalScalar;
    if a == [] {
      assert a + b == b;
    } else {
      assert (a + b)[1..] == a[1..] + b && (a + b)[0] == a[0];
      var v := a[0];
      var c0 := c.(types := c.types[v.name := v.typ]);
      if v.init == "" {
        Declares(h, a[1..], b, c0.(vars := c0.vars[v.name := h.nullOf(v.typ)]), cur);
      } else {
        var (c1, x) := EvalScalar(h, c0, cur, h.declared(v.init, v.typ));
        if x.Ok? { Declares(h, a[1..], b, c1.(vars := c1.vars[v.name := h.lit(x.value)]), cur); }
      }
    }
  }

  // SET is DECLARE without the new type, where the variable is already declared so.
  lemma SetIsDeclare<W>(h: Host<W>, name: string, typ: string, expr: string, c: Config<W>, cur: Option<ErrorInfo>)
    requires name in c.types && c.types[name] == typ && expr != ""
    ensures Big(h, Set(name, expr), c, cur) == Big(h, Declare([Var(name, typ, expr)]), c, cur)
  {
    hide EvalScalar;
    var vars := [Var(name, typ, expr)];
    assert vars[1..] == [] && c.types[name := typ] == c.types && c.(types := c.types[name := typ]) == c;
    var (c1, x) := EvalScalar(h, c, cur, h.declared(expr, typ));
    assert forall c2: Config<W> :: BigDeclare(h, [], c2, cur) == Done(Next, c2, []);
    assert Big(h, Declare(vars), c, cur) == BigDeclare(h, vars, c, cur);
  }

  // An error without a number of its own is seen as number 50000, severity 16, state 1.
  lemma PlainErrorSeen<W>(h: Host<W>, body: Stmt, m: string, c: Config<W>, cur: Option<ErrorInfo>)
    requires var r := Big(h, body, c, cur); r.Fails? && r.error == Plain(m)
    ensures Big(h, Try(body, Throw([])), c, cur) ==
      Fails(Raised(ErrorInfo(50000, m, 16, 1)), Big(h, body, c, cur).c)
  {
    ThrowRaisesAgain(h, body, c, cur);
  }

  // SELECT @x = ... over rows takes the last one, cell by cell, and answers nothing.
  lemma AssignTakesLast<W>(h: Host<W>, names: seq<string>, exprs: seq<string>, tail: string, rows: seq<Row>,
      c: Config<W>, cur: Option<ErrorInfo>)
    requires Ask(h, c, cur, h.select(c.types, names, exprs, tail)).1 == Answer(rows)
    requires forall i, j :: 0 <= i < j < |names| ==> names[i] != names[j]
    ensures var r := Big(h, Assign(names, exprs, tail), c, cur);
      && r.Done? && r.flow == Next && r.out == []
      && (rows == [] ==> r.c.vars == c.vars)
      && (rows != [] && |names| == |rows[|rows| - 1]| ==>
          forall x :: (x in r.c.vars <==> x in c.vars || x in names) &&
            (x in c.vars && x !in names ==> r.c.vars[x] == c.vars[x]))
      && (rows != [] && |names| == |rows[|rows| - 1]| ==>
          forall i :: 0 <= i < |names| ==>
            names[i] in r.c.vars && r.c.vars[names[i]] == h.lit(rows[|rows| - 1][i]))
  {
    if rows != [] && |names| == |rows[|rows| - 1]| { AssignsEach(h, c.vars, names, rows[|rows| - 1]); }
  }

  lemma {:induction false} AssignsEach<W>(h: Host<W>, vars: Bindings, names: seq<string>, last: Row)
    requires |names| == |last| && forall i, j :: 0 <= i < j < |names| ==> names[i] != names[j]
    ensures var b := AssignLast(h, vars, names, last);
      && (forall x :: x in b <==> x in vars || x in names)
      && (forall x :: x in vars && x !in names ==> b[x] == vars[x])
      && (forall i :: 0 <= i < |names| ==> b[names[i]] == h.lit(last[i]))
    decreases |names|
  {
    if names != [] {
      var one := vars[names[0] := h.lit(last[0])];
      assert names[0] !in names[1..];
      assert forall x :: x in names <==> x == names[0] || x in names[1..];
      AssignsEach(h, one, names[1..], last[1..]);
      var b := AssignLast(h, one, names[1..], last[1..]);
      forall i | 0 <= i < |names| ensures b[names[i]] == h.lit(last[i]) {
        if i > 0 { assert names[1..][i - 1] == names[i] && last[1..][i - 1] == last[i]; }
      }
    }
  }

  // RAISERROR goes on below severity 11; from there on it raises error 50000 with its message, severity and state.
  lemma RaiserrorExactly<W>(h: Host<W>, m: string, severity: string, state: string, c: Config<W>,
      cur: Option<ErrorInfo>, c1: Config<W>, c2: Config<W>, c3: Config<W>, vm: Value, vs: Value, vt: Value)
    requires EvalScalar(h, c, cur, m) == (c1, Ok(vm))
    requires EvalScalar(h, c1, cur, severity) == (c2, Ok(vs))
    requires EvalScalar(h, c2, cur, state) == (c3, Ok(vt))
    ensures Big(h, Raiserror([m, severity, state]), c, cur) ==
      if h.toInt(vs) <= 10 then Done(Next, c3, [])
      else Fails(Raised(ErrorInfo(50000, if vm == Null then "" else h.text(vm), h.toInt(vs), h.toInt(vt))), c3)
    ensures Big(h, Raiserror([m, severity]), c, cur) ==
      if h.toInt(vs) <= 10 then Done(Next, c2, [])
      else Fails(Raised(ErrorInfo(50000, if vm == Null then "" else h.text(vm), h.toInt(vs), 1)), c2)
    ensures Big(h, Raiserror([m]), c, cur) ==
      Fails(Raised(ErrorInfo(50000, if vm == Null then "" else h.text(vm), 16, 1)), c1)
  {
    hide EvalScalar;
  }

  // THROW n, m, state raises what it names, at severity 16.
  lemma ThrowExactly<W>(h: Host<W>, n: string, m: string, state: string, c: Config<W>, cur: Option<ErrorInfo>,
      c1: Config<W>, c2: Config<W>, c3: Config<W>, vn: Value, vm: Value, vt: Value)
    requires EvalScalar(h, c, cur, n) == (c1, Ok(vn))
    requires EvalScalar(h, c1, cur, m) == (c2, Ok(vm))
    requires EvalScalar(h, c2, cur, state) == (c3, Ok(vt))
    ensures Big(h, Throw([n, m, state]), c, cur) ==
      Fails(Raised(ErrorInfo(h.toInt(vn), if vm == Null then "" else h.text(vm), 16, h.toInt(vt))), c3)
  {
    hide EvalScalar;
  }
}
