// What the control-flow statements promise: where RETURN, BREAK and CONTINUE can get to, what a failing TRY
// leaves behind, and how long a WHILE may run.

module ControlLaws {
  import opened Option
  import opened Fold
  import opened Control

  // ---------- Sequence ----------

  // What follows a statement list runs exactly when the list neither fails nor jumps, and then from where it
  // left off.
  lemma {:induction false} Sequence<W>(h: Host<W>, a: seq<Stmt>, b: seq<Stmt>, c: Config<W>, cur: Option<ErrorInfo>)
    ensures var r := BigBlock(h, a, c, cur);
      BigBlock(h, a + b, c, cur) == if r.Done? && r.flow == Next then Prepend(r.out, BigBlock(h, b, r.c, cur)) else r
  {
    hide Big, BigBlock, Prepend;
    if a == [] {
      assert a + b == b;
      BlockOver(h, c, cur);
      PrependNothing(BigBlock(h, b, c, cur));
    } else {
      assert (a + b)[1..] == a[1..] + b && (a + b)[0..] == a + b && a[0..] == a;
      BlockTurn(h, a + b, 0, c, cur);
      BlockTurn(h, a, 0, c, cur);
      var r := Big(h, a[0], c, cur);
      if r.Done? && r.flow == Next {
        Sequence(h, a[1..], b, r.c, cur);
        var rest := BigBlock(h, a[1..], r.c, cur);
        PrependEnds(r.out, rest);
        if rest.Done? && rest.flow == Next { PrependTwice(r.out, rest.out, BigBlock(h, b, rest.c, cur)); }
      }
    }
  }

  lemma PrependEnds<W>(out: Results, r: Ending<W>)
    ensures Prepend(out, r) == if r.Done? then r.(out := out + r.out) else r
  {
  }

  // ---------- Where the jumps get to ----------

  // A BREAK or CONTINUE outside every WHILE of s; a RETURN anywhere in s.
  predicate Loose(s: Stmt, jump: Flow)
    decreases s, 0
  {
    match s
    case Block(stmts) => AnyLoose(stmts, jump)
    case If(_, thn, els) => Loose(thn, jump) || (els.Some? && Loose(els.value, jump))
    case While(_, body) => jump == Returning && Loose(body, jump)
    case Try(body, handler) => Loose(body, jump) || Loose(handler, jump)
    case Return => jump == Returning
    case Break => jump == Breaking
    case Continue => jump == Continuing
    case _ => false
  }

  predicate AnyLoose(stmts: seq<Stmt>, jump: Flow)
    decreases stmts, 0
  {
    stmts != [] && (Loose(stmts[0], jump) || AnyLoose(stmts[1..], jump))
  }

  // A statement ends in a jump only if it holds that jump outside its own loops: BREAK and CONTINUE never
  // leave their innermost WHILE, and only RETURN leaves more than one.
  lemma {:induction false} JumpsStayInside<W>(h: Host<W>, s: Stmt, c: Config<W>, cur: Option<ErrorInfo>, jump: Flow)
    requires jump != Next && !Loose(s, jump)
    ensures Big(h, s, c, cur).Done? ==> Big(h, s, c, cur).flow != jump
    decreases s, 0, 0
  {
    hide EvalScalar, EvalBool, BigThrow, BigRaise, AssignLast, BigLoop, BigBlock, BigDeclare, Ask;
    match s
    case Block(stmts) => BlockStaysInside(h, stmts, c, cur, jump);
    case If(cond, thn, els) =>
      var c1 := EvalBool(h, c, cur, cond).0;
      JumpsStayInside(h, thn, c1, cur, jump);
      if els.Some? { JumpsStayInside(h, els.value, c1, cur, jump); }
    case While(cond, body) => LoopStaysInside(h, cond, body, 0, c, cur, jump);
    case Try(body, handler) =>
      JumpsStayInside(h, body, c, cur, jump);
      var r := Big(h, body, c, cur);
      if r.Fails? { JumpsStayInside(h, handler, r.c, Some(InfoOf(r.error)), jump); }
    case Declare(vars) => DeclareStays(h, vars, c, cur);
    case _ =>
  }

  lemma {:induction false} BlockStaysInside<W>(h: Host<W>, stmts: seq<Stmt>, c: Config<W>, cur: Option<ErrorInfo>,
      jump: Flow)
    requires jump != Next && !AnyLoose(stmts, jump)
    ensures BigBlock(h, stmts, c, cur).Done? ==> BigBlock(h, stmts, c, cur).flow != jump
    decreases stmts, 0, 0
  {
    hide Big;
    if stmts != [] {
      JumpsStayInside(h, stmts[0], c, cur, jump);
      var r := Big(h, stmts[0], c, cur);
      BlockStaysInside(h, stmts[1..], r.c, cur, jump);
    }
  }

  lemma {:induction false} LoopStaysInside<W>(h: Host<W>, cond: string, body: Stmt, iter: nat, c: Config<W>,
      cur: Option<ErrorInfo>, jump: Flow)
    requires jump != Next && (jump == Returning ==> !Loose(body, jump))
    ensures BigLoop(h, cond, body, iter, c, cur).Done? ==> BigLoop(h, cond, body, iter, c, cur).flow != jump
    decreases body, 1, MAX_ITERATIONS - iter
  {
    hide Big, BigLoop;
    LoopTurn(h, cond, body, iter, c, cur);
    if iter < MAX_ITERATIONS && EvalBool(h, c, cur, cond).1 == Ok(true) {
      var c1 := EvalBool(h, c, cur, cond).0;
      if jump == Returning { JumpsStayInside(h, body, c1, cur, jump); }
      LoopStaysInside(h, cond, body, iter + 1, Big(h, body, c1, cur).c, cur, jump);
    }
  }

  lemma {:induction false} DeclareStays<W>(h: Host<W>, vars: seq<Var>, c: Config<W>, cur: Option<ErrorInfo>)
    ensures BigDeclare(h, vars, c, cur).Done? ==> BigDeclare(h, vars, c, cur).flow == Next
  {
    hide EvalScalar;
    if vars != [] {
      var v := vars[0];
      var c0 := c.(types := c.types[v.name := v.typ]);
      if v.init == "" {
        DeclareStays(h, vars[1..], c0.(vars := c0.vars[v.name := h.nullOf(v.typ)]), cur);
      } else {
        var (c1, x) := EvalScalar(h, c0, cur, h.declared(v.init, v.typ));
        if x.Ok? { DeclareStays(h, vars[1..], c1.(vars := c1.vars[v.name := h.lit(x.value)]), cur); }
      }
    }
  }

  // ---------- TRY ----------

  // A failing TRY in the middle of a batch: what ran before keeps its results, the body's are dropped, the
  // handler runs from the world and variables the body left, and the batch goes on after it.
  lemma FailingTry<W>(h: Host<W>, pre: seq<Stmt>, body: Stmt, handler: Stmt, post: seq<Stmt>, c: Config<W>,
      cur: Option<ErrorInfo>)
    requires var r := BigBlock(h, pre, c, cur); r.Done? && r.flow == Next && Big(h, body, r.c, cur).Fails?
    ensures
      var before := BigBlock(h, pre, c, cur);
      var failed := Big(h, body, before.c, cur);
      var caught := Big(h, handler, failed.c, Some(InfoOf(failed.error)));
      BigBlock(h, pre + [Try(body, handler)] + post, c, cur) ==
      if caught.Done? && caught.flow == Next then Prepend(before.out + caught.out, BigBlock(h, post, caught.c, cur))
      else Prepend(before.out, caught)
  {
    hide BigBlock, Prepend;
    var before := BigBlock(h, pre, c, cur);
    var all := [Try(body, handler)] + post;
    assert pre + [Try(body, handler)] + post == pre + all;
    Sequence(h, pre, all, c, cur);
    assert all[0..] == all && all[1..] == post;
    BlockTurn(h, all, 0, before.c, cur);
    TryFails(h, body, handler, before.c, cur);
    var caught := Big(h, Try(body, handler), before.c, cur);
    if caught.Done? && caught.flow == Next { PrependTwice(before.out, caught.out, BigBlock(h, post, caught.c, cur)); }
  }

  lemma TryFails<W>(h: Host<W>, body: Stmt, handler: Stmt, c: Config<W>, cur: Option<ErrorInfo>)
    requires Big(h, body, c, cur).Fails?
    ensures var r := Big(h, body, c, cur);
      Big(h, Try(body, handler), c, cur) == Big(h, handler, r.c, Some(InfoOf(r.error)))
  {
  }

  // ---------- WHILE ----------

  // Where n full turns lead: every test true, every body through or CONTINUEd.
  function Turns<W>(h: Host<W>, cond: string, body: Stmt, n: nat, c: Config<W>,
      cur: Option<ErrorInfo>): Option<(Config<W>, Results)> {
    if n == 0 then Some((c, []))
    else
      match EvalBool(h, c, cur, cond)
      case (c1, Ok(true)) =>
        (match Big(h, body, c1, cur)
         case Done(Next, c2, out) => Onto(out, Turns(h, cond, body, n - 1, c2, cur))
         case Done(Continuing, c2, out) => Onto(out, Turns(h, cond, body, n - 1, c2, cur))
         case _ => None)
      case _ => None
  }

  function Onto<W>(out: Results, r: Option<(Config<W>, Results)>): Option<(Config<W>, Results)> {
    if r.Some? then Some((r.value.0, out + r.value.1)) else None
  }

  lemma {:induction false} TurnsThenLoop<W>(h: Host<W>, cond: string, body: Stmt, n: nat, iter: nat, c: Config<W>,
      cur: Option<ErrorInfo>)
    requires iter + n <= MAX_ITERATIONS && Turns(h, cond, body, n, c, cur).Some?
    ensures var t := Turns(h, cond, body, n, c, cur).value;
      BigLoop(h, cond, body, iter, c, cur) == Prepend(t.1, BigLoop(h, cond, body, iter + n, t.0, cur))
    decreases n
  {
    hide Big, BigLoop, EvalBool, Prepend;
    if n == 0 {
      PrependNothing(BigLoop(h, cond, body, iter, c, cur));
    } else {
      LoopTurn(h, cond, body, iter, c, cur);
      var c1 := EvalBool(h, c, cur, cond).0;
      var r := Big(h, body, c1, cur);
      TurnsThenLoop(h, cond, body, n - 1, iter + 1, r.c, cur);
      var t := Turns(h, cond, body, n - 1, r.c, cur).value;
      PrependTwice(r.out, t.1, BigLoop(h, cond, body, iter + n, t.0, cur));
    }
  }

  lemma {:induction false} FewerTurns<W>(h: Host<W>, cond: string, body: Stmt, n: nat, k: nat, c: Config<W>,
      cur: Option<ErrorInfo>)
    requires k <= n && Turns(h, cond, body, n, c, cur).Some?
    ensures Turns(h, cond, body, k, c, cur).Some?
  {
    hide Big, EvalBool;
    if k > 0 {
      var c1 := EvalBool(h, c, cur, cond).0;
      FewerTurns(h, cond, body, n - 1, k - 1, Big(h, body, c1, cur).c, cur);
    }
  }

  // A loop whose test fails after n full turns ends normally exactly when n is below the limit: the guard is
  // looked at before the test, so a loop of exactly 1,000,000 turns fails although its test would end it.
  lemma WhileEndsExactly<W>(h: Host<W>, cond: string, body: Stmt, n: nat, c: Config<W>, cur: Option<ErrorInfo>)
    requires Turns(h, cond, body, n, c, cur).Some?
    requires EvalBool(h, Turns(h, cond, body, n, c, cur).value.0, cur, cond).1 == Ok(false)
    ensures var t := Turns(h, cond, body, n, c, cur).value;
      n < 1_000_000 ==> Big(h, While(cond, body), c, cur) == Done(Next, EvalBool(h, t.0, cur, cond).0, t.1)
    ensures n >= 1_000_000 ==> Turns(h, cond, body, 1_000_000, c, cur).Some?
    ensures n >= 1_000_000 ==>
      Big(h, While(cond, body), c, cur) ==
        Fails(Plain("control: WHILE exceeded 1000000 iterations"),
          Turns(h, cond, body, 1_000_000, c, cur).value.0)
  {
    hide BigLoop, EvalBool, Turns;
    var k := if n < MAX_ITERATIONS then n else MAX_ITERATIONS;
    FewerTurns(h, cond, body, n, k, c, cur);
    TurnsThenLoop(h, cond, body, k, 0, c, cur);
    var t := Turns(h, cond, body, k, c, cur).value;
    LoopTurn(h, cond, body, k, t.0, cur);
    assert t.1 + [] == t.1;
  }
}
