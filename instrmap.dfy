/** `State._populate_instr_map` as a pure function: every statement's
    first instruction, keyed by its line, visited in pre-order so that a
    later statement on the same line replaces an earlier one. The map
    holds the statement's path, which identifies the instruction together
    with its `parent` chain. */
module InstrMap {
  import opened Tree
  import opened Paths
  import opened CtfProps

  function FoldInstrs(m: map<int, StmtPath>, root: Block, ps: seq<StmtPath>): map<int, StmtPath>
    decreases ps
  {
    if ps == [] then m
    else FoldInstrs(if ValidPath(root, ps[0]) then m[FirstOf(root, ps[0]) := ps[0]] else m, root, ps[1..])
  }

  function InstrMapOf(root: Block): map<int, StmtPath>
  {
    FoldInstrs(map[], root, PathsIn(root, []))
  }

  lemma {:induction false} FoldInstrsAppend(m: map<int, StmtPath>, root: Block, a: seq<StmtPath>, b: seq<StmtPath>)
    ensures FoldInstrs(m, root, a + b) == FoldInstrs(FoldInstrs(m, root, a), root, b)
    decreases a
  {
    if a == [] {
      assert a + b == b;
    } else {
      assert (a + b)[1..] == a[1..] + b;
      FoldInstrsAppend(if ValidPath(root, a[0]) then m[FirstOf(root, a[0]) := a[0]] else m, root, a[1..], b);
    }
  }

  predicate EntriesOk(m: map<int, StmtPath>, root: Block)
  {
    forall l :: l in m ==> ValidPath(root, m[l]) && FirstOf(root, m[l]) == l
  }

  /** Keys of the fold: the old ones and the lines of the visited
      statements; every entry names a statement on its own line. */
  lemma {:induction false} FoldInstrsProps(m: map<int, StmtPath>, root: Block, ps: seq<StmtPath>)
    requires EntriesOk(m, root)
    ensures EntriesOk(FoldInstrs(m, root, ps), root)
    ensures forall l :: l in FoldInstrs(m, root, ps) <==>
      l in m || exists p :: p in ps && ValidPath(root, p) && FirstOf(root, p) == l
    decreases ps
  {
    if ps != [] {
      var m' := if ValidPath(root, ps[0]) then m[FirstOf(root, ps[0]) := ps[0]] else m;
      FoldInstrsProps(m', root, ps[1..]);
      assert forall p :: p in ps <==> p == ps[0] || p in ps[1..];
    }
  }

  /** The instruction map has a key for the line of every statement and
      for nothing else, and each entry is a statement on that line. */
  lemma InstrMapProps(root: Block)
    ensures EntriesOk(InstrMapOf(root), root)
    ensures forall l :: l in InstrMapOf(root) <==> exists p :: ValidPath(root, p) && FirstOf(root, p) == l
  {
    FoldInstrsProps(map[], root, PathsIn(root, []));
    forall p ensures p in PathsIn(root, []) <==> ValidPath(root, p) {
      PreorderComplete(root, p);
    }
  }

  /** With one statement per line, each line maps to its statement. */
  lemma InstrMapUnique(root: Block, p: StmtPath)
    requires UniqueLines(root) && ValidPath(root, p)
    ensures FirstOf(root, p) in InstrMapOf(root) && InstrMapOf(root)[FirstOf(root, p)] == p
  {
    InstrMapProps(root);
    UniqueAt(root, InstrMapOf(root)[FirstOf(root, p)], p);
  }
}
