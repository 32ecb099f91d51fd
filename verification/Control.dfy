// The procedural interpreter (internal/extensions/procedures/control/exec.go): IF, WHILE, TRY/CATCH and
// friends, run with a flow flag; and what a batch means by structured evaluation.

module Control {
  import opened Option
  import opened Fold

  // ---------- Programs ----------

  datatype Var = Var(name: string, typ: string, init: string)

  // Assign is the Raw statement SELECT @a = x, ... that trySelectAssign recognises.
  datatype Stmt =
    | Block(stmts: seq<Stmt>)
    | Raw(sql: string)
    | Assign(names: seq<string>, exprs: seq<string>, tail: string)
    | Declare(vars: seq<Var>)
    | Set(name: string, expr: string)
    | Print(expr: string)
    | Return
    | Break
    | Continue
    | If(cond: string, thn: Stmt, els: Option<Stmt>)
    | While(cond: string, body: Stmt)
    | Try(body: Stmt, handler: Stmt)
    | Throw(args: seq<string>)
    | Raiserror(args: seq<string>)

  datatype ErrorInfo = ErrorInfo(number: int, message: string, severity: int, state: int)

  // A raised T-SQL error, or any other failure.
  datatype Error = Raised(info: ErrorInfo) | Plain(message: string)

  function InfoOf(e: Error): ErrorInfo {
    match e
    case Raised(info) => info
    case Plain(m) => ErrorInfo(50000, m, 16, 1)
  }

  type Bindings = map<string, string>

  datatype Reply = Failed(error: Error) | NoRows | Answer(rows: seq<Row>)

  // What the interpreter calls: the engine behind the runner, which may change the world, told of the error
  // being handled; and the text functions that splice values into statements.
  datatype Host<!W> = Host(
    exec: (W, string, Option<ErrorInfo>) -> (W, Reply),
    subst: (Bindings, string) -> string,
    lit: Value -> string,
    toInt: Value -> int,
    text: Value -> string,
    declared: (string, string) -> string,
    nullOf: string -> string,
    select: (Bindings, seq<string>, seq<string>, string) -> string)

  // The world and the variables.
  datatype Config<W> = Config(world: W, vars: Bindings, types: Bindings)

  datatype Result<T> = Ok(value: T) | Err(error: Error)

  // ---------- Expressions ----------

  function Ask<W>(h: Host<W>, c: Config<W>, cur: Option<ErrorInfo>, sql: string): (Config<W>, Reply) {
    var (w, r) := h.exec(c.world, h.subst(c.vars, sql), cur);
    (c.(world := w), r)
  }

  // The first cell of the first row.
  function Cell(r: Reply): Result<Value> {
    match r
    case Failed(e) => Err(e)
    case NoRows => Ok(Null)
    case Answer(rows) => Ok(if rows != [] && rows[0] != [] then rows[0][0] else Null)
  }

  function EvalScalar<W>(h: Host<W>, c: Config<W>, cur: Option<ErrorInfo>, expr: string): (Config<W>, Result<Value>) {
    var (w, r) := h.exec(c.world, "SELECT (" + h.subst(c.vars, expr) + ")", cur);
    (c.(world := w), Cell(r))
  }

  function EvalBool<W>(h: Host<W>, c: Config<W>, cur: Option<ErrorInfo>, cond: string): (Config<W>, Result<bool>) {
    var (w, r) := h.exec(c.world, "SELECT CASE WHEN (" + h.subst(c.vars, cond) + ") THEN 1 ELSE 0 END", cur);
    (c.(world := w),
     match r
     case Failed(e) => Err(e)
     case NoRows => Ok(false)
     case Answer(rows) => Ok(rows != [] && rows[0] != [] && h.toInt(rows[0][0]) == 1))
  }

  // ---------- Structured evaluation ----------

  datatype Flow = Next | Returning | Breaking | Continuing

  type Results = seq<seq<Row>>

  // How a statement ends: with a flow and the result sets it produced, or with an error.
  datatype Ending<W> = Done(flow: Flow, c: Config<W>, out: Results) | Fails(error: Error, c: Config<W>)

  function Prepend<W>(out: Results, r: Ending<W>): Ending<W> {
    match r
    case Done(f, c, more) => Done(f, c, out + more)
    case Fails(_, _) => r
  }

  const MAX_ITERATIONS := 1_000_000

  const TOO_MANY := Plain("control: WHILE exceeded 1000000 iterations")

  function Big<W>(h: Host<W>, s: Stmt, c: Config<W>, cur: Option<ErrorInfo>): Ending<W>
    decreases s, 0, 0
  {
    match s
    case Block(stmts) => BigBlock(h, stmts, c, cur)
    case Raw(sql) =>
      (match Ask(h, c, cur, sql)
       case (c1, Failed(e)) => Fails(e, c1)
       case (c1, NoRows) => Done(Next, c1, [])
       case (c1, Answer(rows)) => Done(Next, c1, [rows]))
    case Assign(names, exprs, tail) =>
      (match Ask(h, c, cur, h.select(c.types, names, exprs, tail))
       case (c1, Failed(e)) => Fails(e, c1)
       case (c1, NoRows) => Done(Next, c1, [])
       case (c1, Answer(rows)) => Done(Next, c1.(vars := AssignLast(h, c1.vars, names, LastRow(rows))), []))
    case Declare(vars) => BigDeclare(h, vars, c, cur)
    case Set(name, expr) =>
      (match EvalScalar(h, c, cur, h.declared(expr, TypeOf(c.types, name)))
       case (c1, Err(e)) => Fails(e, c1)
       case (c1, Ok(v)) => Done(Next, c1.(vars := c1.vars[name := h.lit(v)]), []))
    case Print(expr) =>
      (match EvalScalar(h, c, cur, expr)
       case (c1, Err(e)) => Fails(e, c1)
       case (c1, Ok(_)) => Done(Next, c1, []))
    case Return => Done(Returning, c, [])
    case Break => Done(Breaking, c, [])
    case Continue => Done(Continuing, c, [])
    case If(cond, thn, els) =>
      (match EvalBool(h, c, cur, cond)
       case (c1, Err(e)) => Fails(e, c1)
       case (c1, Ok(b)) =>
         if b then Big(h, thn, c1, cur)
         else if els.Some? then Big(h, els.value, c1, cur)
         else Done(Next, c1, []))
    case While(cond, body) => BigLoop(h, cond, body, 0, c, cur)
    case Try(body, handler) =>
      (match Big(h, body, c, cur)
       // what the body produced is gone, what it changed stays
       case Fails(e, c1) => Big(h, handler, c1, Some(InfoOf(e)))
       case done => done)
    case Throw(args) =>
      if args == [] then Fails(if cur.Some? then Raised(cur.value) else NO_CURRENT, c)
      else var (c1, e) := BigThrow(h, args, c, cur); Fails(e, c1)
    case Raiserror(args) =>
      (match BigRaise(h, args, c, cur)
       case (c1, Err(e)) => Fails(e, c1)
       // severities below 11 are informational
       case (c1, Ok(info)) => if info.severity < 11 then Done(Next, c1, []) else Fails(Raised(info), c1))
  }

  const NO_CURRENT := Plain("control: THROW with no arguments is only valid in a CATCH block")

  function BigBlock<W>(h: Host<W>, stmts: seq<Stmt>, c: Config<W>, cur: Option<ErrorInfo>): Ending<W>
    decreases stmts, 0, 0
  {
    if stmts == [] then Done(Next, c, [])
    else
      match Big(h, stmts[0], c, cur)
      case Done(Next, c1, out) => Prepend(out, BigBlock(h, stmts[1..], c1, cur))
      case other => other
  }

  // The loop from its iter-th test on. The runaway guard stands in front of the test.
  function BigLoop<W>(h: Host<W>, cond: string, body: Stmt, iter: nat, c: Config<W>, cur: Option<ErrorInfo>): Ending<W>
    decreases body, 1, MAX_ITERATIONS - iter
  {
    if iter >= MAX_ITERATIONS then Fails(TOO_MANY, c)
    else
      match EvalBool(h, c, cur, cond)
      case (c1, Err(e)) => Fails(e, c1)
      case (c1, Ok(b)) =>
        if !b then Done(Next, c1, [])
        else
          match Big(h, body, c1, cur)
          case Fails(e, c2) => Fails(e, c2)
          case Done(Breaking, c2, out) => Done(Next, c2, out)
          case Done(Returning, c2, out) => Done(Returning, c2, out)
          case Done(_, c2, out) => Prepend(out, BigLoop(h, cond, body, iter + 1, c2, cur))
  }

  function TypeOf(types: Bindings, name: string): string { if name in types then types[name] else "" }

  function LastRow(rows: seq<Row>): Row { if rows == [] then [] else rows[|rows| - 1] }

  // Each variable gets its column; a short row leaves the rest alone.
  function AssignLast<W>(h: Host<W>, vars: Bindings, names: seq<string>, last: Row): Bindings
    decreases names
  {
    if names == [] || last == [] then vars
    else AssignLast(h, vars[names[0] := h.lit(last[0])], names[1..], last[1..])
  }

  function BigDeclare<W>(h: Host<W>, vars: seq<Var>, c: Config<W>, cur: Option<ErrorInfo>): Ending<W>
    decreases vars, 0, 0
  {
    if vars == [] then Done(Next, c, [])
    else
      var v := vars[0];
      var c0 := c.(types := c.types[v.name := v.typ]);
      if v.init == "" then BigDeclare(h, vars[1..], c0.(vars := c0.vars[v.name := h.nullOf(v.typ)]), cur)
      else
        match EvalScalar(h, c0, cur, h.declared(v.init, v.typ))
        case (c1, Err(e)) => Fails(e, c1)
        case (c1, Ok(x)) => BigDeclare(h, vars[1..], c1.(vars := c1.vars[v.name := h.lit(x)]), cur)
  }

  function Message<W>(h: Host<W>, v: Value): string { if v.Null? then "" else h.text(v) }

  // An argument whose error is ignored: the default stays.
  function Optional<W>(h: Host<W>, args: seq<string>, k: nat, default: int, c: Config<W>,
      cur: Option<ErrorInfo>): (Config<W>, int) {
    if k >= |args| then (c, default)
    else
      match EvalScalar(h, c, cur, args[k])
      case (c1, Ok(v)) => (c1, h.toInt(v))
      case (c1, Err(_)) => (c1, default)
  }

  // THROW number, message, state.
  function BigThrow<W>(h: Host<W>, args: seq<string>, c: Config<W>, cur: Option<ErrorInfo>): (Config<W>, Error)
    requires args != []
  {
    match EvalScalar(h, c, cur, args[0])
    case (c1, Err(e)) => (c1, e)
    case (c1, Ok(n)) =>
      if |args| == 1 then (c1, Raised(ErrorInfo(h.toInt(n), "", 16, 1)))
      else
        match EvalScalar(h, c1, cur, args[1])
        case (c2, Err(e)) => (c2, e)
        case (c2, Ok(m)) =>
          var (c3, state) := Optional(h, args, 2, 1, c2, cur);
          (c3, Raised(ErrorInfo(h.toInt(n), Message(h, m), 16, state)))
  }

  // RAISERROR(message, severity, state).
  function BigRaise<W>(h: Host<W>, args: seq<string>, c: Config<W>, cur: Option<ErrorInfo>)
    : (Config<W>, Result<ErrorInfo>)
  {
    if args == [] then (c, Ok(ErrorInfo(50000, "", 16, 1)))
    else
      match EvalScalar(h, c, cur, args[0])
      case (c1, Err(e)) => (c1, Err(e))
      case (c1, Ok(m)) =>
        var (c2, severity) := Optional(h, args, 1, 16, c1, cur);
        var (c3, state) := Optional(h, args, 2, 1, c2, cur);
        (c3, Ok(ErrorInfo(50000, Message(h, m), severity, state)))
  }

  // ---------- The interpreter's state ----------

  class State {
    var flow: Flow
    var results: Results

    constructor ()
      ensures flow == Next && results == []
    {
      flow, results := Next, [];
    }
  }

  class Scope {
    var vars: Bindings
    var types: Bindings

    constructor ()
      ensures vars == map[] && types == map[]
    {
      vars, types := map[], map[];
    }
  }

  class Runner<!W> {
    const host: Host<W>
    var world: W

    constructor (h: Host<W>, w: W)
      ensures host == h && world == w
    {
      host, world := h, w;
    }

    method Exec(sql: string, cur: Option<ErrorInfo>) returns (r: Reply)
      modifies this
      ensures (world, r) == host.exec(old(world), sql, cur)
    {
      var p := host.exec(world, sql, cur);
      world, r := p.0, p.1;
    }
  }

  function Now<W>(sc: Scope, run: Runner<W>): Config<W>
    reads sc, run
  {
    Config(run.world, sc.vars, sc.types)
  }

  // The flags and results after a statement are what its structured evaluation says. After an error some
  // results may be left behind; TRY removes them.
  ghost predicate Meets<W>(r: Ending<W>, err: Option<Error>, c: Config<W>, flow: Flow, before: Results,
      after: Results) {
    match r
    case Done(f, c1, out) => err.None? && c == c1 && flow == f && after == before + out
    case Fails(e, c1) => err == Some(e) && c == c1 && flow == Next && before <= after
  }

  // ---------- execStmt ----------

  method RunScalar<W>(expr: string, sc: Scope, run: Runner<W>, cur: Option<ErrorInfo>) returns (r: Result<Value>)
    modifies run
    ensures (Now(sc, run), r) == EvalScalar(run.host, old(Now(sc, run)), cur, expr)
  {
    var reply := run.Exec("SELECT (" + run.host.subst(sc.vars, expr) + ")", cur);
    r := Cell(reply);
  }

  method RunBool<W>(cond: string, sc: Scope, run: Runner<W>, cur: Option<ErrorInfo>) returns (r: Result<bool>)
    modifies run
    ensures (Now(sc, run), r) == EvalBool(run.host, old(Now(sc, run)), cur, cond)
  {
    var reply := run.Exec("SELECT CASE WHEN (" + run.host.subst(sc.vars, cond) + ") THEN 1 ELSE 0 END", cur);
    match reply {
      case Failed(e) => r := Err(e);
      case NoRows => r := Ok(false);
      case Answer(rows) => r := Ok(|rows| > 0 && |rows[0]| > 0 && run.host.toInt(rows[0][0]) == 1);
    }
  }

  method RunOptional<W>(args: seq<string>, k: nat, default: int, sc: Scope, run: Runner<W>, cur: Option<ErrorInfo>)
    returns (n: int)
    modifies run
    ensures (Now(sc, run), n) == Optional(run.host, args, k, default, old(Now(sc, run)), cur)
  {
    n := default;
    if |args| > k {
      var v := RunScalar(args[k], sc, run, cur);
      if v.Ok? { n := run.host.toInt(v.value); }
    }
  }

  method RunThrow<W>(args: seq<string>, sc: Scope, run: Runner<W>, cur: Option<ErrorInfo>) returns (e: Error)
    requires args != []
    modifies run
    ensures (Now(sc, run), e) == BigThrow(run.host, args, old(Now(sc, run)), cur)
  {
    hide EvalScalar, Optional;
    var info := ErrorInfo(50000, "", 16, 1);
    var n := RunScalar(args[0], sc, run, cur);
    if n.Err? { return n.error; }
    info := info.(number := run.host.toInt(n.value));
    if |args| >= 2 {
      var m := RunScalar(args[1], sc, run, cur);
      if m.Err? { return m.error; }
      info := info.(message := Message(run.host, m.value));
      var state := RunOptional(args, 2, 1, sc, run, cur);
      info := info.(state := state);
    }
    e := Raised(info);
  }

  method RunRaise<W>(args: seq<string>, sc: Scope, run: Runner<W>, cur: Option<ErrorInfo>)
    returns (r: Result<ErrorInfo>)
    modifies run
    ensures (Now(sc, run), r) == BigRaise(run.host, args, old(Now(sc, run)), cur)
  {
    hide EvalScalar, Optional;
    var info := ErrorInfo(50000, "", 16, 1);
    if |args| >= 1 {
      var m := RunScalar(args[0], sc, run, cur);
      if m.Err? { return Err(m.error); }
      info := info.(message := Message(run.host, m.value));
      var severity := RunOptional(args, 1, 16, sc, run, cur);
      var state := RunOptional(args, 2, 1, sc, run, cur);
      info := info.(severity := severity, state := state);
    }
    r := Ok(info);
  }

  method RunDeclare<W>(vars: seq<Var>, sc: Scope, run: Runner<W>, cur: Option<ErrorInfo>) returns (err: Option<Error>)
    modifies sc, run
    ensures Meets(BigDeclare(run.host, vars, old(Now(sc, run)), cur), err, Now(sc, run), Next, [], [])
  {
    hide EvalScalar;
    assert vars[0..] == vars;
    for i := 0 to |vars|
      invariant BigDeclare(run.host, vars, old(Now(sc, run)), cur) == BigDeclare(run.host, vars[i..], Now(sc, run), cur)
    {
      assert vars[i..][1..] == vars[i + 1..];
      var v := vars[i];
      var lit := run.host.nullOf(v.typ);
      sc.types := sc.types[v.name := v.typ];
      if v.init != "" {
        var x := RunScalar(run.host.declared(v.init, v.typ), sc, run, cur);
        if x.Err? { return Some(x.error); }
        lit := run.host.lit(x.value);
      }
      sc.vars := sc.vars[v.name := lit];
    }
    err := None;
  }

  method AssignFrom<W>(names: seq<string>, last: Row, sc: Scope, run: Runner<W>)
    modifies sc`vars
    ensures sc.vars == AssignLast(run.host, old(sc.vars), names, last)
  {
    assert names[0..] == names && last[0..] == last;
    var i := 0;
    while i < |names| && i < |last|
      invariant i <= |names| && i <= |last|
      invariant AssignLast(run.host, old(sc.vars), names, last) == AssignLast(run.host, sc.vars, names[i..], last[i..])
    {
      assert names[i..][1..] == names[i + 1..] && last[i..][1..] == last[i + 1..];
      sc.vars := sc.vars[names[i] := run.host.lit(last[i])];
      i := i + 1;
    }
  }

  predicate Simple(s: Stmt) { !s.Block? && !s.If? && !s.While? && !s.Try? }

  // The statements that hold no others.
  method ExecSimple<W>(s: Stmt, sc: Scope, run: Runner<W>, st: State, cur: Option<ErrorInfo>)
    returns (err: Option<Error>)
    requires st.flow == Next && Simple(s)
    modifies sc, run, st
    ensures Meets(Big(run.host, s, old(Now(sc, run)), cur), err, Now(sc, run), st.flow, old(st.results), st.results)
  {
    hide EvalScalar, EvalBool, BigThrow, BigRaise, AssignLast, BigBlock, BigLoop;
    err := None;
    match s
    case Raw(sql) =>
      var reply := run.Exec(run.host.subst(sc.vars, sql), cur);
      match reply {
        case Failed(e) => return Some(e);
        case NoRows =>
        case Answer(rows) => st.results := st.results + [rows];
      }
    case Assign(names, exprs, tail) =>
      var reply := run.Exec(run.host.subst(sc.vars, run.host.select(sc.types, names, exprs, tail)), cur);
      match reply {
        case Failed(e) => return Some(e);
        case NoRows =>
        case Answer(rows) => AssignFrom(names, LastRow(rows), sc, run);
      }
    case Declare(vars) =>
      err := RunDeclare(vars, sc, run, cur);
    case Set(name, expr) =>
      var v := RunScalar(run.host.declared(expr, TypeOf(sc.types, name)), sc, run, cur);
      if v.Err? { return Some(v.error); }
      sc.vars := sc.vars[name := run.host.lit(v.value)];
    case Print(expr) =>
      var v := RunScalar(expr, sc, run, cur);
      if v.Err? { return Some(v.error); }
    case Return => st.flow := Returning;
    case Break => st.flow := Breaking;
    case Continue => st.flow := Continuing;
    case Throw(args) =>
      if args == [] {
        return Some(if cur.Some? then Raised(cur.value) else NO_CURRENT);
      }
      var e := RunThrow(args, sc, run, cur);
      return Some(e);
    case Raiserror(args) =>
      var r := RunRaise(args, sc, run, cur);
      if r.Err? { return Some(r.error); }
      if r.value.severity >= 11 { return Some(Raised(r.value)); }
  }

  method ExecStmt<W>(s: Stmt, sc: Scope, run: Runner<W>, st: State, cur: Option<ErrorInfo>) returns (err: Option<Error>)
    requires st.flow == Next
    modifies sc, run, st
    ensures Meets(Big(run.host, s, old(Now(sc, run)), cur), err, Now(sc, run), st.flow, old(st.results), st.results)
    decreases s, 0
  {
    hide EvalScalar, EvalBool, BigThrow, BigRaise, AssignLast, BigBlock, BigLoop, BigDeclare, Ask, InfoOf;
    err := None;
    match s
    case Block(stmts) =>
      err := ExecBlock(stmts, sc, run, st, cur);
    case If(cond, thn, els) =>
      var b := RunBool(cond, sc, run, cur);
      if b.Err? { return Some(b.error); }
      if b.value {
        err := ExecStmt(thn, sc, run, st, cur);
      } else if els.Some? {
        err := ExecStmt(els.value, sc, run, st, cur);
      }
    case While(cond, body) =>
      err := ExecWhile(cond, body, sc, run, st, cur);
    case Try(body, handler) =>
      var mark := |st.results|;
      err := ExecStmt(body, sc, run, st, cur);
      if err.Some? {
        st.flow := Next;
        st.results := st.results[..mark];
        err := ExecStmt(handler, sc, run, st, Some(InfoOf(err.value)));
      }
    case _ =>
      err := ExecSimple(s, sc, run, st, cur);
  }

  // One more statement of a block, or turn of a loop, went through.
  lemma Onward<W>(before: Results, mid: Results, out: Results, r: Ending<W>, err: Option<Error>, c: Config<W>,
      flow: Flow, after: Results)
    requires mid == before + out && Meets(r, err, c, flow, mid, after)
    ensures Meets(Prepend(out, r), err, c, flow, before, after)
  {
    if r.Done? { assert (before + out) + r.out == before + (out + r.out); }
  }

  lemma BlockTurn<W>(h: Host<W>, stmts: seq<Stmt>, i: nat, c: Config<W>, cur: Option<ErrorInfo>)
    requires i < |stmts|
    ensures var r := Big(h, stmts[i], c, cur);
      BigBlock(h, stmts[i..], c, cur) ==
        if r.Done? && r.flow == Next then Prepend(r.out, BigBlock(h, stmts[i + 1..], r.c, cur)) else r
  {
    hide Big;
    assert stmts[i..][1..] == stmts[i + 1..];
  }

  lemma BlockOver<W>(h: Host<W>, c: Config<W>, cur: Option<ErrorInfo>)
    ensures BigBlock(h, [], c, cur) == Done(Next, c, [])
  {
  }

  method ExecBlock<W>(stmts: seq<Stmt>, sc: Scope, run: Runner<W>, st: State, cur: Option<ErrorInfo>)
    returns (err: Option<Error>)
    requires st.flow == Next
    modifies sc, run, st
    ensures Meets(BigBlock(run.host, stmts, old(Now(sc, run)), cur),
      err, Now(sc, run), st.flow, old(st.results), st.results)
    decreases stmts, 0
  {
    hide Big, BigBlock, Prepend;
    ghost var out: Results := [];
    ghost var whole := BigBlock(run.host, stmts, Now(sc, run), cur);
    assert stmts[0..] == stmts;
    PrependNothing(whole);
    for i := 0 to |stmts|
      invariant st.flow == Next && st.results == old(st.results) + out
      invariant whole == Prepend(out, BigBlock(run.host, stmts[i..], Now(sc, run), cur))
    {
      ghost var c, mid := Now(sc, run), st.results;
      err := ExecStmt(stmts[i], sc, run, st, cur);
      ghost var r := Big(run.host, stmts[i], c, cur);
      BlockTurn(run.host, stmts, i, c, cur);
      if err.Some? || st.flow != Next {
        Onward(old(st.results), mid, out, r, err, Now(sc, run), st.flow, st.results);
        return;
      }
      PrependTwice(out, r.out, BigBlock(run.host, stmts[i + 1..], Now(sc, run), cur));
      out := out + r.out;
    }
    err := None;
    assert stmts[|stmts|..] == [];
    BlockOver(run.host, Now(sc, run), cur);
    Onward(old(st.results), st.results, out, Done(Next, Now(sc, run), []), err, Now(sc, run), Next, st.results);
  }

  lemma PrependNothing<W>(r: Ending<W>)
    ensures Prepend([], r) == r
  {
    if r.Done? { assert [] + r.out == r.out; }
  }

  lemma PrependTwice<W>(a: Results, b: Results, r: Ending<W>)
    ensures Prepend(a, Prepend(b, r)) == Prepend(a + b, r)
  {
    if r.Done? { assert a + (b + r.out) == (a + b) + r.out; }
  }

  // One turn of WHILE, by its body's ending.
  lemma LoopTurn<W>(h: Host<W>, cond: string, body: Stmt, iter: nat, c: Config<W>, cur: Option<ErrorInfo>)
    ensures iter >= MAX_ITERATIONS ==> BigLoop(h, cond, body, iter, c, cur) == Fails(TOO_MANY, c)
    ensures iter < MAX_ITERATIONS ==>
      var (c1, b) := EvalBool(h, c, cur, cond);
      && (b.Err? ==> BigLoop(h, cond, body, iter, c, cur) == Fails(b.error, c1))
      && (b == Ok(false) ==> BigLoop(h, cond, body, iter, c, cur) == Done(Next, c1, []))
      && (b == Ok(true) ==>
          var r := Big(h, body, c1, cur);
          && (r.Fails? ==> BigLoop(h, cond, body, iter, c, cur) == r)
          && (r.Done? && r.flow == Breaking ==> BigLoop(h, cond, body, iter, c, cur) == r.(flow := Next))
          && (r.Done? && r.flow == Returning ==> BigLoop(h, cond, body, iter, c, cur) == r)
          && (r.Done? && r.flow in {Next, Continuing} ==>
              BigLoop(h, cond, body, iter, c, cur) == Prepend(r.out, BigLoop(h, cond, body, iter + 1, r.c, cur))))
  {
    hide Big, EvalBool;
  }

  // The test and the body once; more says that another turn follows.
  method ExecTurn<W>(cond: string, body: Stmt, ghost iter: nat, sc: Scope, run: Runner<W>, st: State,
      cur: Option<ErrorInfo>)
    returns (err: Option<Error>, more: bool, ghost out: Results)
    requires st.flow == Next && iter < MAX_ITERATIONS
    modifies sc, run, st
    ensures !more ==> Meets(BigLoop(run.host, cond, body, iter, old(Now(sc, run)), cur),
      err, Now(sc, run), st.flow, old(st.results), st.results)
    ensures more ==> err.None? && st.flow == Next && st.results == old(st.results) + out
    ensures more ==> (BigLoop(run.host, cond, body, iter, old(Now(sc, run)), cur) ==
                      Prepend(out, BigLoop(run.host, cond, body, iter + 1, Now(sc, run), cur)))
    decreases body, 1
  {
    hide Big, BigLoop, EvalBool, Prepend;
    LoopTurn(run.host, cond, body, iter, Now(sc, run), cur);
    err, more, out := None, false, [];
    assert st.results + [] == st.results;
    var b := RunBool(cond, sc, run, cur);
    if b.Err? { err := Some(b.error); return; }
    if !b.value { return; }
    ghost var r := Big(run.host, body, Now(sc, run), cur);
    err := ExecStmt(body, sc, run, st, cur);
    if err.Some? { return; }
    out := r.out;
    if st.flow == Breaking {
      st.flow := Next;
      return;
    } else if st.flow == Continuing {
      st.flow := Next;
    } else if st.flow == Returning {
      return;
    }
    more := true;
  }

  method ExecWhile<W>(cond: string, body: Stmt, sc: Scope, run: Runner<W>, st: State, cur: Option<ErrorInfo>)
    returns (err: Option<Error>)
    requires st.flow == Next
    modifies sc, run, st
    ensures Meets(BigLoop(run.host, cond, body, 0, old(Now(sc, run)), cur),
      err, Now(sc, run), st.flow, old(st.results), st.results)
    decreases body, 2
  {
    hide Big, BigLoop, Prepend;
    ghost var out: Results := [];
    ghost var whole := BigLoop(run.host, cond, body, 0, Now(sc, run), cur);
    PrependNothing(whole);
    var iter := 0;
    while true
      invariant 0 <= iter <= MAX_ITERATIONS
      invariant st.flow == Next && st.results == old(st.results) + out
      invariant whole == Prepend(out, BigLoop(run.host, cond, body, iter, Now(sc, run), cur))
      decreases MAX_ITERATIONS - iter
    {
      ghost var mid := st.results;
      ghost var rest := BigLoop(run.host, cond, body, iter, Now(sc, run), cur);
      if iter >= MAX_ITERATIONS {
        LoopTurn(run.host, cond, body, iter, Now(sc, run), cur);
        err := Some(TOO_MANY);
        Onward(old(st.results), mid, out, rest, err, Now(sc, run), st.flow, st.results);
        return;
      }
      var more: bool;
      ghost var turn: Results;
      err, more, turn := ExecTurn(cond, body, iter, sc, run, st, cur);
      if !more {
        Onward(old(st.results), mid, out, rest, err, Now(sc, run), st.flow, st.results);
        return;
      }
      PrependTwice(out, turn, BigLoop(run.host, cond, body, iter + 1, Now(sc, run), cur));
      out := out + turn;
      iter := iter + 1;
    }
  }

  // RunAll: the result sets, or the error and none.
  method RunAll<W>(batch: seq<Stmt>, run: Runner<W>) returns (r: Result<Results>)
    modifies run
    ensures var big := Big(run.host, Block(batch), Config(old(run.world), map[], map[]), None);
      run.world == big.c.world && r == (if big.Done? then Ok(big.out) else Err(big.error))
  {
    hide Big;
    var sc := new Scope();
    var st := new State();
    var err := ExecStmt(Block(batch), sc, run, st, None);
    ghost var big := Big(run.host, Block(batch), Config(old(run.world), map[], map[]), None);
    if big.Done? { assert [] + big.out == big.out; }
    r := if err.Some? then Err(err.value) else Ok(st.results);
  }
}
