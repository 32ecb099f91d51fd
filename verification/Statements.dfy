// Cutting a batch into statements (internal/extensions/batch/boundary.go and Split in batch.go).

module Statements {
  import opened Option
  import opened Lexing

  // ---------- Words ----------

  function UpperChar(c: char): char { if 'a' <= c <= 'z' then c - ('a' - 'A') else c }

  function Upper(s: string): (u: string)
    ensures |u| == |s|
    ensures s != [] ==> u[0] == UpperChar(s[0])
  {
    if s == [] then [] else [UpperChar(s[0])] + Upper(s[1..])
  }

  const LEAD_WORDS := {"SELECT", "INSERT", "UPDATE", "DELETE", "MERGE", "DECLARE", "SET", "WITH", "EXEC", "EXECUTE",
    "IF", "WHILE", "BEGIN", "PRINT", "RETURN", "USE", "CREATE", "ALTER", "DROP", "TRUNCATE", "RAISERROR", "THROW",
    "GOTO", "WAITFOR", "BREAK", "CONTINUE"}

  predicate IsLead(u: string) { u in LEAD_WORDS }

  // An identifier or keyword, where it stands, how deep in parentheses, and whether '(' follows it.
  datatype WordAt = WordAt(text: string, at: nat, end: nat, depth: nat, parenAfter: bool)

  predicate IsBlankMark(u: Unit) { u.kind == Mark && |u.text| == 1 && IsBlank(u.text[0]) }

  predicate ParenNext(us: seq<Unit>) {
    us != [] && (us[0] == Unit(Mark, "(") || (IsBlankMark(us[0]) && ParenNext(us[1..])))
  }

  function Deeper(depth: nat, u: Unit): nat {
    if u == Unit(Mark, "(") then depth + 1
    else if u == Unit(Mark, ")") && depth > 0 then depth - 1
    else depth
  }

  predicate IsWordUnit(u: Unit) { u.kind == Word || u.kind == Name }

  // The words among the units of a text that starts at position at.
  function WordsOf(us: seq<Unit>, at: nat, depth: nat): seq<WordAt> {
    if us == [] then []
    else
      var end := at + |us[0].text|;
      (if IsWordUnit(us[0]) then [WordAt(us[0].text, at, end, depth, ParenNext(us[1..]))] else []) +
      WordsOf(us[1..], end, Deeper(depth, us[0]))
  }

  function WordsIn(s: string): seq<WordAt> { WordsOf(Lex(s), 0, 0) }

  // ---------- Where a statement ends ----------

  datatype State = State(lead: string, values: bool, ownSet: bool)

  datatype Verdict = Before | After | Whole | Go(st: State)

  const SET_OPS := {"UNION", "ALL", "EXCEPT", "INTERSECT"}

  // What a word u outside parentheses does to a statement that opened with st.lead: hint says it is
  // WITH ( , prev is the word before it, ties says TIES follows.
  function JudgeWord(st: State, u: string, hint: bool, prev: string, ties: bool): Verdict {
    if st.lead in {"CREATE", "ALTER"} then Whole
    else if st.lead == "USE" then After
    else if st.lead in
      {"DECLARE", "SET", "EXEC", "EXECUTE", "PRINT", "DROP", "TRUNCATE", "RAISERROR", "THROW", "WAITFOR"} then
      if u == "CURSOR" && st.lead == "DECLARE" then Whole else if IsLead(u) then Before else Go(st)
    else if st.lead == "WITH" then
      Go(if u in {"SELECT", "INSERT", "UPDATE", "DELETE", "MERGE"} then st.(lead := u) else st)
    else if st.lead == "SELECT" then
      if u == "SELECT" then (if prev in SET_OPS then Go(st) else Before)
      else if u == "WITH" then (if !hint && !ties then Before else Go(st))
      else if IsLead(u) then Before else Go(st)
    else if st.lead in {"UPDATE", "DELETE"} then
      if u == "SET" && st.lead == "UPDATE" && !st.ownSet then Go(st.(ownSet := true))
      else if !hint && IsLead(u) then Before else Go(st)
    else if st.lead == "MERGE" then
      if u == "SET" && prev == "UPDATE" then Go(st)
      else if u in {"INSERT", "UPDATE", "DELETE"} || hint then Go(st)
      else if IsLead(u) then Before else Go(st)
    else if st.lead == "INSERT" then
      var seen := st.(values := st.values || u == "VALUES");
      if u == "SELECT" && !seen.values then Go(seen)
      else if u in {"EXEC", "EXECUTE"} || hint then Go(seen)
      else if IsLead(u) then Before else Go(seen)
    else if u in {"DECLARE", "USE", "SET"} then Before else Go(st)
  }

  // One turn of statementEnd: the k-th word.
  function Judge(st: State, ws: seq<WordAt>, k: nat): Verdict
    requires 0 < k < |ws|
  {
    var u := Upper(ws[k].text);
    if ws[k].depth != 0 then Go(st)
    else JudgeWord(st, u, u == "WITH" && ws[k].parenAfter, Upper(ws[k - 1].text),
                   k + 1 < |ws| && Upper(ws[k + 1].text) == "TIES")
  }

  // Where the statement stops, judged from the k-th word on; None is the end of the text.
  function StopFrom(ws: seq<WordAt>, k: nat, st: State): Option<nat>
    requires 0 < k <= |ws|
    decreases |ws| - k
  {
    if k == |ws| then None
    else match Judge(st, ws, k)
      case Before => Some(ws[k].at)
      case After => Some(ws[k].end)
      case Whole => None
      case Go(next) => StopFrom(ws, k + 1, next)
  }

  function Opening(ws: seq<WordAt>): State
    requires ws != []
  {
    State(Upper(ws[0].text), false, false)
  }

  function Stop(ws: seq<WordAt>): Option<nat> { if ws == [] then None else StopFrom(ws, 1, Opening(ws)) }

  function CutLen(s: string): nat {
    match Stop(WordsIn(s))
    case Some(n) => n
    case None => |s|
  }

  // ---------- Trimming ----------

  function RTrim(s: string): (r: string)
    ensures r <= s
    ensures r != [] ==> !IsBlank(r[|r| - 1])
  {
    if s != [] && IsBlank(s[|s| - 1]) then RTrim(s[..|s| - 1]) else s
  }

  function LTrim(s: string): (r: string)
    ensures |r| <= |s| && r == s[|s| - |r|..]
    ensures r != [] ==> !IsBlank(r[0])
  {
    if s != [] && IsBlank(s[0]) then LTrim(s[1..]) else s
  }

  function Trim(s: string): string { RTrim(LTrim(s)) }

  // The whitespace and comments in front of the first token.
  function LeadLen(s: string): (n: nat)
    ensures n <= |s|
  {
    if s == [] then 0
    else if IsSpace(s[0]) then 1 + LeadLen(s[1..])
    else if CommentLen(s) > 0 then CommentLen(s) + LeadLen(s[CommentLen(s)..])
    else 0
  }

  function Lead(s: string): (r: string)
    ensures |r| <= |s|
  {
    Trim(s[LeadLen(s)..])
  }

  // ---------- Statements ----------

  lemma {:induction false} WordsBounds(us: seq<Unit>, at: nat, depth: nat, k: nat)
    requires forall u <- us :: |u.text| > 0
    requires k < |WordsOf(us, at, depth)|
    ensures var w := WordsOf(us, at, depth)[k];
      at <= w.at < w.end <= at + |Concat(us)| && w.text != [] && w.end == w.at + |w.text| && (k > 0 ==> at < w.at)
  {
    var end := at + |us[0].text|;
    if IsWordUnit(us[0]) {
      if k > 0 { WordsBounds(us[1..], end, Deeper(depth, us[0]), k - 1); }
    } else {
      WordsBounds(us[1..], end, Deeper(depth, us[0]), k);
    }
  }

  lemma {:induction false} UnitsNotEmpty(t: string)
    ensures forall u <- Lex(t) :: |u.text| > 0
  {
    if t != [] { UnitsNotEmpty(t[NextLen(t)..]); }
  }

  lemma {:induction false} StopBounds(ws: seq<WordAt>, k: nat, st: State, n: nat)
    requires 0 < k <= |ws|
    requires forall i :: 0 < i < |ws| ==> 0 < ws[i].at < ws[i].end <= n
    ensures StopFrom(ws, k, st).Some? ==> 0 < StopFrom(ws, k, st).value <= n
    decreases |ws| - k
  {
    hide Judge;
    if k < |ws| && Judge(st, ws, k).Go? { StopBounds(ws, k + 1, Judge(st, ws, k).st, n); }
  }

  // A statement is never empty.
  lemma CutLenBounds(s: string)
    requires s != []
    ensures 0 < CutLen(s) <= |s|
  {
    hide StopFrom, WordsOf, Lex, Concat;
    UnitsNotEmpty(s);
    ConcatLex(s);
    var ws := WordsIn(s);
    forall i | 0 < i < |ws| ensures 0 < ws[i].at < ws[i].end <= |s| { WordsBounds(Lex(s), 0, 0, i); }
    if ws != [] { StopBounds(ws, 1, Opening(ws), |s|); }
  }

  // cutStatements.
  function Pieces(t: string): seq<string>
    decreases |t|
  {
    var s := Lead(t);
    if s == [] then []
    else
      CutLenBounds(s);
      [Trim(s[..CutLen(s)])] + Pieces(s[CutLen(s)..])
  }

  // Up to the first ';' outside strings, [names] and comments.
  function ChunkLen(t: string): (n: nat)
    ensures n <= |t|
    ensures n < |t| ==> t[n] == ';'
  {
    if t == [] || t[0] == ';' then 0 else NextLen(t) + ChunkLen(t[NextLen(t)..])
  }

  function SplitText(sql: string): seq<string>
    decreases |sql|
  {
    var n := ChunkLen(sql);
    Pieces(sql[..n]) + (if n < |sql| then SplitText(sql[n + 1..]) else [])
  }
}
