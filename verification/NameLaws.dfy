// Which names a query's sources go by, and what an enclosing row answers for a name (sourceQuals and rowResolver in
// internal/engine/bind.go).
module NameLaws {
  import opened Option
  import opened Fold
  import opened Tds
  import opened Exec
  import opened Binder
  import opened Hoist

  // k is the name with A to Z as a to z.
  ghost predicate Spells(k: string, name: string) {
    |k| == |name| && forall i :: 0 <= i < |name| ==>
      k[i] == if 'A' <= name[i] <= 'Z' then (name[i] as int + 32) as char else name[i]
  }

  // Inside its own query a source goes by its alias, or where it has none by its table, with its schema or without.
  ghost predicate OwnName(k: string, alias: string, schema: string, table: string) {
    if alias != "" then Spells(k, alias) else TableName(k, schema, table)
  }

  ghost predicate TableName(k: string, schema: string, table: string) {
    table != "" && (Spells(k, table) || (schema != "" && Spells(k, schema + "." + table)))
  }

  // A subquery may call it by either.
  ghost predicate OuterName(k: string, alias: string, schema: string, table: string) {
    (alias != "" && Spells(k, alias)) || TableName(k, schema, table)
  }

  lemma SpelledKey(k: string, name: string)
    ensures k == Key(name) <==> Spells(k, name)
  {
    if Spells(k, name) {
      assert forall i :: 0 <= i < |name| ==> k[i] == Key(name)[i];
    }
  }

  lemma SourceNames(k: string, alias: string, schema: string, table: string)
    ensures k in NamesOf(alias, schema, table, true) <==> OwnName(k, alias, schema, table)
    ensures k in NamesOf(alias, schema, table, false) <==> OuterName(k, alias, schema, table)
  {
    hide Spells;
    SpelledKey(k, alias);
    SpelledKey(k, table);
    SpelledKey(k, schema + "." + table);
  }

  lemma {:induction false} JoinedNames(k: string, joins: seq<Join>)
    ensures k in JoinNames(joins, true) <==> exists j :: j in joins && OwnName(k, j.alias, j.schema, j.table)
    ensures k in JoinNames(joins, false) <==> exists j :: j in joins && OuterName(k, j.alias, j.schema, j.table)
  {
    hide OwnName, OuterName, NamesOf;
    if joins != [] {
      var j := joins[0];
      SourceNames(k, j.alias, j.schema, j.table);
      JoinedNames(k, joins[1..]);
      assert forall x :: x in joins <==> x == j || x in joins[1..];
    }
  }

  // The qualifiers that a query hides from what encloses it: its sources' own names.
  lemma HiddenNamesExactly(q: Query, local: set<string>, k: string)
    ensures k in WithSources(local, q) <==>
      || k in local
      || OwnName(k, q.alias, q.schema, q.table)
      || (exists j :: j in q.joins && OwnName(k, j.alias, j.schema, j.table))
      || (q.shape.pivotAlias != "" && Spells(k, q.shape.pivotAlias))
      || (q.shape.unpivotAlias != "" && Spells(k, q.shape.unpivotAlias))
  {
    hide OwnName, NamesOf, Spells;
    SourceNames(k, q.alias, q.schema, q.table);
    JoinedNames(k, q.joins);
    SourceNames(k, q.shape.pivotAlias, "", "");
    SourceNames(k, q.shape.unpivotAlias, "", "");
    AliasOnly(k, q.shape.pivotAlias);
    AliasOnly(k, q.shape.unpivotAlias);
  }

  // The qualifiers that it answers for in a subquery.
  lemma AnsweredNamesExactly(q: Query, k: string)
    ensures k in SourceQuals(q, false) <==>
      || OuterName(k, q.alias, q.schema, q.table)
      || (exists j :: j in q.joins && OuterName(k, j.alias, j.schema, j.table))
      || (q.shape.pivotAlias != "" && Spells(k, q.shape.pivotAlias))
      || (q.shape.unpivotAlias != "" && Spells(k, q.shape.unpivotAlias))
  {
    hide OuterName, NamesOf, Spells;
    SourceNames(k, q.alias, q.schema, q.table);
    JoinedNames(k, q.joins);
    SourceNames(k, q.shape.pivotAlias, "", "");
    SourceNames(k, q.shape.unpivotAlias, "", "");
    AliasOnly(k, q.shape.pivotAlias);
    AliasOnly(k, q.shape.unpivotAlias);
  }

  lemma AliasOnly(k: string, alias: string)
    ensures OwnName(k, alias, "", "") <==> alias != "" && Spells(k, alias)
    ensures OuterName(k, alias, "", "") <==> alias != "" && Spells(k, alias)
  {
    hide Spells;
  }

  // ---------- What the row answers ----------

  // Where a name's qualifier is one of the enclosing query's, a subquery reads the cell that the enclosing query
  // itself reads under that name; every other name it leaves alone.
  lemma OuterReadsRow(row: Row, idx: Index, quals: set<string>, joined: bool, name: string)
    ensures var i := ResolveCol(idx, name);
      Qualifier(name) != "" && Owner(name) in quals && (joined <==> name in idx) && i.Some? && i.value < |row| ==>
      RowResolver(row, idx, quals, joined)(name) == Some(Lookup(idx, row, name))
    ensures Qualifier(name) == "" || Owner(name) !in quals ==> RowResolver(row, idx, quals, joined)(name) == None
  {
  }

  // Among joined columns the spelling of a name does not matter.
  lemma OuterReadsAnySpelling(row: Row, idx: Index, quals: set<string>, name: string, column: string)
    requires Qualifier(name) != "" && Owner(name) in quals && name !in idx
    requires column in idx && Key(column) == Key(name) && idx[column] < |row|
    requires forall x :: x in idx && Key(x) == Key(name) ==> idx[x] == idx[column]
    ensures RowResolver(row, idx, quals, true)(name) == Some(row[idx[column]])
  {
  }
}
