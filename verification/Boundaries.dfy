// Where a statement ends (internal/extensions/batch/boundary.go): two statements side by side are cut between them,
// and exactly when not.
module Boundaries {
  import opened Option
  import opened Lexing
  import opened Statements

  // ---------- What a statement is, by its words ----------

  // The words outside parentheses, in upper case.
  function TopWords(ws: seq<WordAt>): seq<string> {
    if ws == [] then []
    else (if ws[0].depth == 0 then [Upper(ws[0].text)] else []) + TopWords(ws[1..])
  }

  // The keyword whose rules the statement follows, and its words behind that. A WITH follows its first SELECT,
  // INSERT, UPDATE, DELETE or MERGE.
  datatype Main = Main(lead: string, after: seq<string>)

  function AfterWith(tops: seq<string>): Main {
    if tops == [] then Main("WITH", [])
    else if tops[0] in {"SELECT", "INSERT", "UPDATE", "DELETE", "MERGE"} then Main(tops[0], tops[1..])
    else AfterWith(tops[1..])
  }

  function MainOf(ws: seq<WordAt>): Main
    requires ws != []
  {
    Started(Upper(ws[0].text), TopWords(ws[1..]))
  }

  function Started(first: string, tops: seq<string>): Main {
    if first == "WITH" then AfterWith(tops) else Main(first, tops)
  }

  // The words that open a statement.
  predicate OpensStatement(w: string) {
    w in {"SELECT", "INSERT", "UPDATE", "DELETE", "MERGE", "DECLARE", "SET", "WITH", "EXEC", "EXECUTE", "IF", "WHILE",
      "BEGIN", "PRINT", "RETURN", "USE", "CREATE", "ALTER", "DROP", "TRUNCATE", "RAISERROR", "THROW", "GOTO", "WAITFOR",
      "BREAK", "CONTINUE"}
  }

  // Statements whose rules are none of those spelled out below.
  predicate IsPlainLead(lead: string) {
    lead !in {"CREATE", "ALTER", "WITH", "DECLARE", "USE", "SELECT", "UPDATE", "DELETE", "MERGE", "INSERT", "SET",
      "EXEC", "EXECUTE", "PRINT", "DROP", "TRUNCATE", "RAISERROR", "THROW", "WAITFOR"}
  }

  // The word w behind a statement continues it: prev is the word before w, hint says that ( follows a WITH, ties that
  // TIES does.
  predicate Continues(m: Main, prev: string, w: string, hint: bool, ties: bool) {
    // a routine's body; a CTE without its statement yet; a cursor's query; USE without its database yet
    || m.lead in {"CREATE", "ALTER", "WITH"}
    || (m.lead == "DECLARE" && "CURSOR" in m.after)
    || (m.lead == "USE" && m.after == [])
    // SELECT behind a set operator, a table hint, TOP ... WITH TIES
    || (m.lead == "SELECT" && w == "SELECT" && prev in {"UNION", "ALL", "EXCEPT", "INTERSECT"})
    || (m.lead == "SELECT" && w == "WITH" && (hint || ties))
    || (m.lead in {"UPDATE", "DELETE", "MERGE", "INSERT"} && w == "WITH" && hint)
    // UPDATE's own SET, once
    || (m.lead == "UPDATE" && w == "SET" && "SET" !in m.after)
    // the actions of a MERGE
    || (m.lead == "MERGE" && (w in {"INSERT", "UPDATE", "DELETE"} || (w == "SET" && prev == "UPDATE")))
    // what an INSERT inserts
    || (m.lead == "INSERT" && ((w == "SELECT" && "VALUES" !in m.after) || w in {"EXEC", "EXECUTE"}))
    // IF, WHILE, BEGIN and the rest hold other statements
    || (IsPlainLead(m.lead) && w !in {"DECLARE", "USE", "SET"})
  }

  // ---------- What the machine knows of the words behind it ----------

  ghost predicate Knows(st: State, m: Main) {
    && st.lead == m.lead
    && (m.lead == "UPDATE" ==> (st.ownSet <==> "SET" in m.after))
    && (m.lead == "INSERT" ==> (st.values <==> "VALUES" in m.after))
    && (m.lead == "WITH" ==> !st.ownSet && !st.values)
    && (m.lead in {"CREATE", "ALTER", "USE"} ==> m.after == [])
    && (m.lead == "DECLARE" ==> "CURSOR" !in m.after)
  }

  lemma {:induction false} AfterWithMore(tops: seq<string>, u: string)
    ensures var m := AfterWith(tops);
      AfterWith(tops + [u]) ==
        if m.lead != "WITH" then Main(m.lead, m.after + [u])
        else if u in {"SELECT", "INSERT", "UPDATE", "DELETE", "MERGE"} then Main(u, []) else Main("WITH", [])
    ensures AfterWith(tops).lead == "WITH" ==> AfterWith(tops).after == []
  {
    if tops == [] {
      assert [u][1..] == [];
    } else {
      assert (tops + [u])[1..] == tops[1..] + [u] && (tops + [u])[0] == tops[0];
      if tops[0] !in {"SELECT", "INSERT", "UPDATE", "DELETE", "MERGE"} { AfterWithMore(tops[1..], u); }
    }
  }

  lemma KnowsMore(st: State, first: string, tops: seq<string>, u: string, hint: bool, prev: string, ties: bool)
    requires Knows(st, Started(first, tops)) && JudgeWord(st, u, hint, prev, ties).Go?
    requires hint ==> u == "WITH"
    ensures Knows(JudgeWord(st, u, hint, prev, ties).st, Started(first, tops + [u]))
  {
    AfterWithMore(tops, u);
    var m := Started(first, tops);
    assert forall x: string :: x in m.after + [u] <==> x in m.after || x == u;
  }

  lemma {:induction false} TopWordsMore(ws: seq<WordAt>, w: WordAt)
    ensures TopWords(ws + [w]) == TopWords(ws) + (if w.depth == 0 then [Upper(w.text)] else [])
  {
    if ws == [] {
      assert [w][1..] == [];
    } else {
      assert (ws + [w])[1..] == ws[1..] + [w] && (ws + [w])[0] == ws[0];
      TopWordsMore(ws[1..], w);
    }
  }

  // ---------- Up to the end of the first statement ----------

  // The machine's state behind the words, unless it stops among them.
  function Runs(ws: seq<WordAt>, k: nat, st: State): Option<State>
    requires 0 < k <= |ws|
    decreases |ws| - k
  {
    if k == |ws| then Some(st)
    else match Judge(st, ws, k)
      case Go(next) => Runs(ws, k + 1, next)
      case _ => None
  }

  // More words behind do not change the verdicts, unless TIES comes first.
  lemma SameJudge(a: seq<WordAt>, b: seq<WordAt>, k: nat, st: State)
    requires 0 < k < |a| && (b != [] ==> Upper(b[0].text) != "TIES")
    ensures Judge(st, a + b, k) == Judge(st, a, k)
  {
    hide JudgeWord;
    assert (a + b)[k] == a[k] && (a + b)[k - 1] == a[k - 1];
    if k + 1 == |a| && b != [] { assert (a + b)[k + 1] == b[0]; }
  }

  lemma {:induction false} RunsOn(a: seq<WordAt>, b: seq<WordAt>, k: nat, st: State)
    requires 0 < k <= |a| && (b != [] ==> Upper(b[0].text) != "TIES")
    ensures Runs(a, k, st).Some? ==> StopFrom(a + b, k, st) == StopFrom(a + b, |a|, Runs(a, k, st).value)
    ensures Runs(a, k, st).None? ==> StopFrom(a + b, k, st) == StopFrom(a, k, st)
    decreases |a| - k
  {
    hide Judge;
    if k < |a| {
      SameJudge(a, b, k, st);
      assert (a + b)[k] == a[k];
      if Judge(st, a, k).Go? { RunsOn(a, b, k + 1, Judge(st, a, k).st); }
    }
  }

  lemma {:induction false} RunsKnow(ws: seq<WordAt>, k: nat, st: State)
    requires 0 < k <= |ws| && Knows(st, Started(Upper(ws[0].text), TopWords(ws[1..k])))
    ensures Runs(ws, k, st).Some? ==> Knows(Runs(ws, k, st).value, MainOf(ws))
    decreases |ws| - k
  {
    hide Knows, JudgeWord;
    if k == |ws| {
      assert ws[1..k] == ws[1..];
    } else if Judge(st, ws, k).Go? {
      assert ws[1..k + 1] == ws[1..k] + [ws[k]];
      TopWordsMore(ws[1..k], ws[k]);
      if ws[k].depth == 0 {
        var u := Upper(ws[k].text);
        KnowsMore(st, Upper(ws[0].text), TopWords(ws[1..k]), u, u == "WITH" && ws[k].parenAfter, Upper(ws[k - 1].text),
          k + 1 < |ws| && Upper(ws[k + 1].text) == "TIES");
      } else {
        assert TopWords(ws[1..k]) + [] == TopWords(ws[1..k]);
      }
      RunsKnow(ws, k + 1, Judge(st, ws, k).st);
    }
  }

  lemma {:induction false} TopHas(ws: seq<WordAt>, k: nat)
    requires k < |ws| && ws[k].depth == 0
    ensures Upper(ws[k].text) in TopWords(ws)
  {
    if k > 0 { TopHas(ws[1..], k - 1); }
  }

  // Why a statement's own words stop it: a body that runs to the end, USE behind its database, or a cut.
  ghost predicate Stopped(ws: seq<WordAt>, stop: Option<nat>)
    requires ws != []
  {
    var m := MainOf(ws);
    match stop
    case None => m.lead in {"CREATE", "ALTER"} || (m.lead == "DECLARE" && "CURSOR" in m.after)
    case Some(n) =>
      || (m.lead == "USE" && m.after != [] && exists j :: 0 < j < |ws| && n == ws[j].end)
      || exists j :: 0 < j < |ws| && n == ws[j].at
  }

  lemma {:induction false} WhyStopped(ws: seq<WordAt>, k: nat, st: State)
    requires 0 < k <= |ws| && Knows(st, Started(Upper(ws[0].text), TopWords(ws[1..k])))
    requires Runs(ws, k, st).None?
    ensures Stopped(ws, StopFrom(ws, k, st))
    decreases |ws| - k
  {
    hide Knows, JudgeWord, Stopped;
    assert ws[1..k + 1] == ws[1..k] + [ws[k]];
    TopWordsMore(ws[1..k], ws[k]);
    var u := Upper(ws[k].text);
    if Judge(st, ws, k).Go? {
      if ws[k].depth == 0 {
        KnowsMore(st, Upper(ws[0].text), TopWords(ws[1..k]), u, u == "WITH" && ws[k].parenAfter, Upper(ws[k - 1].text),
          k + 1 < |ws| && Upper(ws[k + 1].text) == "TIES");
      } else {
        assert TopWords(ws[1..k]) + [] == TopWords(ws[1..k]);
      }
      WhyStopped(ws, k + 1, Judge(st, ws, k).st);
    } else {
      StoppedHere(ws, k, st);
    }
  }

  lemma StoppedHere(ws: seq<WordAt>, k: nat, st: State)
    requires 0 < k < |ws| && Knows(st, Started(Upper(ws[0].text), TopWords(ws[1..k]))) && !Judge(st, ws, k).Go?
    ensures Stopped(ws, StopFrom(ws, k, st))
  {
    assert ws[1..][k - 1] == ws[k];
    TopHas(ws[1..], k - 1);
    var u := Upper(ws[k].text);
    var first, tops := Upper(ws[0].text), TopWords(ws[1..k]);
    if Started(first, tops).lead in {"CREATE", "ALTER", "USE", "DECLARE"} {
      LeadIsFirst(first, tops, TopWords(ws[1..]));
    }
    match Judge(st, ws, k)
    case Before => assert StopFrom(ws, k, st) == Some(ws[k].at);
    case After => assert StopFrom(ws, k, st) == Some(ws[k].end);
    case Whole => assert StopFrom(ws, k, st) == None;
  }

  lemma LeadIsFirst(first: string, tops: seq<string>, all: seq<string>)
    requires Started(first, tops).lead in {"CREATE", "ALTER", "USE", "DECLARE"}
    ensures Started(first, all) == Main(Started(first, tops).lead, all)
  {
    if first == "WITH" { WithLeads(tops); }
  }

  lemma {:induction false} WithLeads(tops: seq<string>)
    ensures AfterWith(tops).lead in {"WITH", "SELECT", "INSERT", "UPDATE", "DELETE", "MERGE"}
  {
    if tops != [] && tops[0] !in {"SELECT", "INSERT", "UPDATE", "DELETE", "MERGE"} { WithLeads(tops[1..]); }
  }

  // ---------- The cut, by words ----------

  // Nothing is cut among the words a, which end at n.
  ghost predicate Complete(a: seq<WordAt>, n: nat) {
    && a != [] && (Stop(a) == None || Stop(a) == Some(n))
    && forall i :: 0 <= i < |a| ==> a[i].at < n
  }

  lemma {:induction false} StopsLater(ws: seq<WordAt>, k: nat, st: State, n: nat)
    requires 0 < k <= |ws| && forall i :: k <= i < |ws| ==> n <= ws[i].at && n <= ws[i].end
    ensures StopFrom(ws, k, st).Some? ==> StopFrom(ws, k, st).value >= n
    decreases |ws| - k
  {
    hide Judge;
    if k < |ws| && Judge(st, ws, k).Go? { StopsLater(ws, k + 1, Judge(st, ws, k).st, n); }
  }

  function Hint(b: seq<WordAt>): bool
    requires b != []
  {
    Upper(b[0].text) == "WITH" && b[0].parenAfter
  }

  function Ties(b: seq<WordAt>): bool { |b| > 1 && Upper(b[1].text) == "TIES" }

  // The verdict on the first word behind.
  lemma FirstBehind(m: Main, st: State, prev: string, w: string, hint: bool, ties: bool)
    requires Knows(st, m) && OpensStatement(w) && (hint ==> w == "WITH")
    ensures var v := JudgeWord(st, w, hint, prev, ties);
      if Continues(m, prev, w, hint, ties) then v.Go? || v.Whole? || (v.After? && m.lead == "USE") else v == Before
  {
  }

  lemma WordBoundary(a: seq<WordAt>, b: seq<WordAt>, n: nat)
    requires Complete(a, n) && b != [] && b[0].depth == 0 && OpensStatement(Upper(b[0].text))
    requires n <= b[0].at < b[0].end && forall i :: 0 < i < |b| ==> b[0].end <= b[i].at && b[0].end <= b[i].end
    ensures var w := Upper(b[0].text);
      var stop := Stop(a + b);
      if Continues(MainOf(a), Upper(a[|a| - 1].text), w, Hint(b), Ties(b))
      then stop.Some? ==> stop.value >= b[0].end
      else stop == Some(b[0].at) || (MainOf(a).lead == "USE" && stop == Some(n))
  {
    hide Knows, JudgeWord, Continues, MainOf;
    var st := Opening(a);
    assert a[1..1] == [];
    KnowsOpening(a);
    assert (a + b)[0] == a[0] && Opening(a + b) == st;
    assert Upper(b[0].text) != "TIES";
    RunsOn(a, b, 1, st);
    RunsKnow(a, 1, st);
    if Runs(a, 1, st).Some? {
      BehindComplete(a, b, Runs(a, 1, st).value);
    } else {
      WhyStopped(a, 1, st);
      StoppedComplete(a, b, n);
    }
  }

  lemma KnowsOpening(a: seq<WordAt>)
    requires a != []
    ensures Knows(Opening(a), Started(Upper(a[0].text), TopWords([])))
  {
  }

  lemma StoppedComplete(a: seq<WordAt>, b: seq<WordAt>, n: nat)
    requires Complete(a, n) && b != [] && Stopped(a, Stop(a))
    ensures Stop(a) == Some(n) ==> MainOf(a).lead == "USE" && MainOf(a).after != []
    ensures Continues(MainOf(a), Upper(a[|a| - 1].text), Upper(b[0].text), Hint(b), Ties(b)) <==> Stop(a) == None
  {
  }

  lemma BehindComplete(a: seq<WordAt>, b: seq<WordAt>, st: State)
    requires a != [] && b != [] && b[0].depth == 0 && OpensStatement(Upper(b[0].text)) && Knows(st, MainOf(a))
    requires b[0].at < b[0].end && forall i :: 0 < i < |b| ==> b[0].end <= b[i].at && b[0].end <= b[i].end
    ensures var stop := StopFrom(a + b, |a|, st);
      if Continues(MainOf(a), Upper(a[|a| - 1].text), Upper(b[0].text), Hint(b), Ties(b))
      then stop.Some? ==> stop.value >= b[0].end
      else stop == Some(b[0].at)
  {
    hide Knows, JudgeWord, Continues, MainOf;
    var ws, k := a + b, |a|;
    assert ws[k] == b[0] && ws[k - 1] == a[k - 1];
    if |b| > 1 { assert ws[k + 1] == b[1]; }
    FirstBehind(MainOf(a), st, Upper(a[k - 1].text), Upper(b[0].text), Hint(b), Ties(b));
    var v := Judge(st, ws, k);
    if v.Go? {
      forall i | k + 1 <= i < |ws| ensures b[0].end <= ws[i].at && b[0].end <= ws[i].end { assert ws[i] == b[i - k]; }
      StopsLater(ws, k + 1, v.st, b[0].end);
    }
  }
}
