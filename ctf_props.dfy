/** What the tables of `get_ctfs` contain: which lines have rows, what
    those rows hold, and the fixed point `is_final` looks for. */
module CtfProps {
  import opened Wrappers
  import opened Instruction
  import opened Tree
  import opened Paths
  import opened Stf
  import opened Ctf

  function FirstOf(root: Block, p: StmtPath): int
    requires ValidPath(root, p)
  {
    First(StmtAt(root, p).value)
  }

  /** No two statements of the tree start on the same line (one statement
      per line). Tables and the instruction map are keyed by line, so
      without this a later statement's row overwrites an earlier one's. */
  ghost predicate UniqueLines(root: Block)
  {
    forall p1, p2 :: ValidPath(root, p1) && ValidPath(root, p2) && FirstOf(root, p1) == FirstOf(root, p2) ==> p1 == p2
  }

  lemma RowOkIff(mode: NextRows, root: Block, t: Tables, p: StmtPath)
    ensures Row(mode, root, t, p).Ok? <==> RowOk(mode, root, p)
  {
    if !RowOk(mode, root, p) {
      var w :| HasRow(mode, root, p, w) && RowLine(root, p, w).Err?;
      if w.TrueW? {} else if w.FalseW? {} else {}
    }
  }

  /** The construction succeeds exactly when every statement's rows can be
      computed. */
  lemma {:induction false} FoldOk(mode: NextRows, root: Block, t0: Tables, ps: seq<StmtPath>)
    ensures FoldRows(mode, root, Ok(t0), ps).Ok? <==> forall p :: p in ps ==> RowOk(mode, root, p)
    decreases ps
  {
    if ps != [] {
      RowOkIff(mode, root, t0, ps[0]);
      var r := Row(mode, root, t0, ps[0]);
      if r.Ok? {
        FoldOk(mode, root, r.value, ps[1..]);
        assert forall p :: p in ps <==> p == ps[0] || p in ps[1..];
      } else {
        FoldErr(mode, root, r.error, ps[1..]);
      }
    }
  }

  /** A successful fold entered the first statement's rows. */
  lemma FoldOkHead(mode: NextRows, root: Block, t0: Tables, ps: seq<StmtPath>)
    requires ps != []
    ensures FoldRows(mode, root, Ok(t0), ps).Ok? ==> Row(mode, root, t0, ps[0]).Ok?
  {
    var r := Row(mode, root, t0, ps[0]);
    if r.Err? {
      FoldErr(mode, root, r.error, ps[1..]);
    }
  }

  /** The keys of each table: the old ones plus the lines of the
      statements that contribute that kind of row. */
  lemma {:induction false} FoldKeys(mode: NextRows, root: Block, t0: Tables, ps: seq<StmtPath>, t: Tables, w: Which)
    requires FoldRows(mode, root, Ok(t0), ps) == Ok(t)
    ensures forall l :: l in Tab(t, w) <==>
      l in Tab(t0, w) || exists p :: p in ps && HasRow(mode, root, p, w) && FirstOf(root, p) == l
    decreases ps
  {
    if ps != [] {
      FoldOkHead(mode, root, t0, ps);
      var r := Row(mode, root, t0, ps[0]);
      FoldKeys(mode, root, r.value, ps[1..], t, w);
      assert Tab(r.value, w) == Put(mode, root, t0, ps[0], w) by {
        if w.NextW? {} else if w.TrueW? {} else {}
      }
      assert forall p :: p in ps <==> p == ps[0] || p in ps[1..];
    }
  }

  /** Every entry of each table is the old entry or the row of some
      statement with that line. */
  lemma {:induction false} FoldValues(mode: NextRows, root: Block, t0: Tables, ps: seq<StmtPath>, t: Tables, w: Which)
    requires FoldRows(mode, root, Ok(t0), ps) == Ok(t)
    ensures forall l :: l in Tab(t, w) ==>
      (l in Tab(t0, w) && Tab(t, w)[l] == Tab(t0, w)[l]) ||
      exists p :: p in ps && HasRow(mode, root, p, w) && FirstOf(root, p) == l && RowLine(root, p, w) == Ok(Tab(t, w)[l])
    decreases ps
  {
    if ps != [] {
      FoldOkHead(mode, root, t0, ps);
      var r := Row(mode, root, t0, ps[0]);
      FoldValues(mode, root, r.value, ps[1..], t, w);
      assert Tab(r.value, w) == Put(mode, root, t0, ps[0], w) by {
        if w.NextW? {} else if w.TrueW? {} else {}
      }
      forall l | l in Tab(t, w)
        ensures (l in Tab(t0, w) && Tab(t, w)[l] == Tab(t0, w)[l]) ||
          exists p :: p in ps && HasRow(mode, root, p, w) && FirstOf(root, p) == l && RowLine(root, p, w) == Ok(Tab(t, w)[l])
      {
        if l in Tab(r.value, w) && Tab(t, w)[l] == Tab(r.value, w)[l] {
          if HasRow(mode, root, ps[0], w) && l == FirstOf(root, ps[0]) {
            assert ps[0] in ps;
          }
        } else {
          var p :| p in ps[1..] && HasRow(mode, root, p, w) && FirstOf(root, p) == l && RowLine(root, p, w) == Ok(Tab(t, w)[l]);
          assert p in ps;
        }
      }
    }
  }

  /** `get_ctfs` succeeds exactly when the transfer functions of every
      row-contributing statement succeed. */
  lemma CtfOk(mode: NextRows, root: Block)
    ensures CtfTables(mode, root).Ok? <==> forall p :: ValidPath(root, p) ==> RowOk(mode, root, p)
  {
    FoldOk(mode, root, EmptyTables(), PathsIn(root, []));
    forall p ensures p in PathsIn(root, []) <==> ValidPath(root, p) {
      PreorderComplete(root, p);
    }
  }

  /** Exactly the lines of row-contributing statements are keys: `true`
      and `false` rows for if and while headers, `next` rows for the
      statements `HasRow` names. */
  lemma CtfKeys(mode: NextRows, root: Block, t: Tables, w: Which, l: int)
    requires CtfTables(mode, root) == Ok(t)
    ensures l in Tab(t, w) <==> exists p :: HasRow(mode, root, p, w) && FirstOf(root, p) == l
  {
    FoldKeys(mode, root, EmptyTables(), PathsIn(root, []), t, w);
    assert Tab(EmptyTables(), w) == map[] by { if w.NextW? {} else if w.TrueW? {} else {} }
    if exists p :: HasRow(mode, root, p, w) && FirstOf(root, p) == l {
      var p :| HasRow(mode, root, p, w) && FirstOf(root, p) == l;
      PreorderComplete(root, p);
    }
  }

  /** With one statement per line, the row of a statement holds the line
      its transfer function leads to. */
  lemma CtfValues(mode: NextRows, root: Block, t: Tables, w: Which, p: StmtPath)
    requires CtfTables(mode, root) == Ok(t) && UniqueLines(root)
    requires HasRow(mode, root, p, w)
    ensures FirstOf(root, p) in Tab(t, w)
    ensures RowLine(root, p, w) == Ok(Tab(t, w)[FirstOf(root, p)])
  {
    CtfKeys(mode, root, t, w, FirstOf(root, p));
    FoldValues(mode, root, EmptyTables(), PathsIn(root, []), t, w);
    assert Tab(EmptyTables(), w) == map[] by { if w.NextW? {} else if w.TrueW? {} else {} }
  }

  /** A `return` never gets a `next` row (one statement per line). */
  lemma ReturnHasNoNextRow(mode: NextRows, root: Block, t: Tables, p: StmtPath)
    requires CtfTables(mode, root) == Ok(t) && UniqueLines(root)
    requires ValidPath(root, p) && KindOf(StmtAt(root, p).value) == RetK
    ensures FirstOf(root, p) !in t.next
  {
    CtfKeys(mode, root, t, NextW, FirstOf(root, p));
  }

  /** As written, no def header gets a `next` row, so the machine's step
      on a def finds nothing to move to. */
  lemma AsWrittenDefHasNoNextRow(root: Block, t: Tables, p: StmtPath)
    requires CtfTables(AsWritten, root) == Ok(t) && UniqueLines(root)
    requires ValidPath(root, p) && StmtAt(root, p).value.DefStmt?
    ensures FirstOf(root, p) !in t.next
  {
    CtfKeys(AsWritten, root, t, NextW, FirstOf(root, p));
  }

  lemma UniqueAt(root: Block, p1: StmtPath, p2: StmtPath)
    requires UniqueLines(root) && ValidPath(root, p1) && ValidPath(root, p2)
    requires FirstOf(root, p1) == FirstOf(root, p2)
    ensures p1 == p2
  {
  }

  /** The row of a statement points at itself only when `next` of the
      statement is the statement. */
  lemma SelfRow(mode: NextRows, root: Block, t: Tables, p: StmtPath)
    requires CtfTables(mode, root) == Ok(t) && UniqueLines(root)
    requires HasRow(mode, root, p, NextW)
    ensures FirstOf(root, p) in t.next
    ensures t.next[FirstOf(root, p)] == FirstOf(root, p) <==> Next(root, p) == Ok(p)
  {
    CtfValues(mode, root, t, NextW, p);
    var n := Next(root, p);
    assert n.Ok?;
    assert RowLine(root, p, NextW) == Ok(FirstOf(root, n.value));
    if FirstOf(root, n.value) == FirstOf(root, p) {
      UniqueAt(root, n.value, p);
    }
  }

  /** As written, the `next` table has no fixed point at all, so
      `is_final` never holds. */
  lemma AsWrittenNoFixpoint(root: Block, t: Tables, l: int)
    requires CtfTables(AsWritten, root) == Ok(t) && UniqueLines(root) && WellIndexedBlock(root)
    requires l in t.next
    ensures t.next[l] != l
  {
    CtfKeys(AsWritten, root, t, NextW, l);
    var p :| HasRow(AsWritten, root, p, NextW) && FirstOf(root, p) == l;
    SelfRow(AsWritten, root, t, p);
    NextFixpointIff(root, p);
    WellIndexedAt(root, p);
  }

  /** The last top-level statement, when it falls through and is neither
      an if nor a while (those have no `next` row), and its line. */
  predicate FinalAt(root: Block, l: int)
  {
    |root.stmts| > 0 &&
    var p := StmtPath([], |root.stmts| - 1);
    ValidPath(root, p) && FirstOf(root, p) == l && FallsThrough(StmtAt(root, p).value)
      && !StmtAt(root, p).value.IfStmt? && !StmtAt(root, p).value.WhileStmt?
  }

  /** With the intended rows, the `next` table's only fixed point is the
      line of that final statement. */
  lemma IntendedFixpointIff(root: Block, t: Tables, l: int)
    requires CtfTables(Intended, root) == Ok(t) && UniqueLines(root) && WellIndexedBlock(root)
    ensures (l in t.next && t.next[l] == l) <==> FinalAt(root, l)
  {
    if l in t.next && t.next[l] == l {
      CtfKeys(Intended, root, t, NextW, l);
      var p :| HasRow(Intended, root, p, NextW) && FirstOf(root, p) == l;
      SelfRow(Intended, root, t, p);
      NextFixpointIff(root, p);
    }
    if FinalAt(root, l) {
      var p := StmtPath([], |root.stmts| - 1);
      assert HasRow(Intended, root, p, NextW);
      SelfRow(Intended, root, t, p);
      NextFixpointIff(root, p);
    }
  }
}
