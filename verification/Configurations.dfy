/** From a parsed configuration description to the values of its symbols. */
module Configurations {
  import opened Symbols
  import opened Expressions
  import opened SymbolEquations
  import opened EvaluationState
  import opened EvaluationTheory
  import opened SymbolTable
  import opened Solutions
  import opened DependencyCheck
  import opened EvaluationOrder

  /** The cells are the one solution of the equations for these user values. */
  ghost predicate OnlySolution(g: Graph, users: Users, cells: Cells) {
    Solution(g, users, cells) && forall c: Cells :: Solution(g, users, c) ==> c == cells
  }

  /** Calculating the symbols of a graph in any order. When the graph can be
      ranked, each symbol gets its cell in the one solution. */
  method Evaluate(g: Graph, users: Users, order: seq<Symbol>, ghost ok: bool,
      ghost rank: Symbol -> nat) returns (t: Table, ghost cells: Cells)
    requires users.Keys == g.decls.Keys && (forall s :: s in g.decls ==> s.Config?)
    requires ok ==> Ranked(g, rank) && UserPicks(g, users) && (g.modules.Config? || g.modules == SymNo)
    ensures fresh(t) && t.g == g
    ensures ok ==> OnlySolution(g, users, cells)
    ensures ok ==> forall s :: s in order && s in g.decls ==> s in t.st.cell && s in cells && t.st.cell[s] == cells[s]
  {
    hide Ranked, Solution, Good, Equation, AllGood, Inert;
    t := new Table(g, users);
    cells := map[];
    ghost var w := World(rank, cells, users);
    if ok {
      cells := SolutionExists(g, rank, users);
      forall c: Cells | Solution(g, users, c) ensures c == cells {
        SolutionUnique(g, rank, users, c, cells);
      }
      w := World(rank, cells, users);
      AllConfig(g, rank);
      SolutionKeys(g, users, cells);
    }
    t.ClearAllValid(ok, w);
    t.CalcInOrder(order, ok, w);
  }

  lemma AllConfig(g: Graph, rank: Symbol -> nat)
    requires Ranked(g, rank)
    ensures forall s :: s in g.decls ==> s.Config?
    ensures g.modules.Config? ==> g.modules in g.decls
  {
  }

  lemma SolutionKeys(g: Graph, users: Users, cells: Cells)
    requires Solution(g, users, cells)
    ensures cells.Keys == g.decls.Keys
  {
  }

  /** A description without choices: the sweep finds no error exactly when the
      checked dependencies are acyclic. Then every symbol is calculated, in
      whatever order it is asked for, and if also everything needed is declared
      and no symbol needs its own value, each gets its cell in the one solution
      of the equations. */
  method CheckAndEvaluate(g: Graph, users: Users, names: seq<Symbol>, order: seq<Symbol>)
    returns (errors: nat, t: Option<Table>, ghost cells: Cells)
    requires ChoiceFree(g) && Elements(names) == g.decls.Keys == users.Keys && (forall s :: s in g.decls ==> s.Config?)
    requires UserPicks(g, users) && (g.modules.Config? || g.modules == SymNo)
    ensures errors == 0 <==> !HasCycle(g)
    ensures errors == 0 <==> t.Some?
    ensures t.Some? && Declared(g) && !HasNeedsCycle(g) ==> OnlySolution(g, users, cells)
    ensures t.Some? && Declared(g) && !HasNeedsCycle(g) ==>
      forall s :: s in order && s in g.decls ==> s in t.value.st.cell && s in cells && t.value.st.cell[s] == cells[s]
  {
    hide OnlySolution, Ranked, Declared, HasNeedsCycle, ChoiceFree, UserPicks;
    var checker := new Checker(g, true);
    errors := checker.CheckAll(names);
    t, cells := None, map[];
    if errors == 0 {
      ghost var ok, rank := Declared(g) && !HasNeedsCycle(g), (s: Symbol) => 0 as nat;
      if ok { rank := AcyclicRanked(g); }
      var table, solution := Evaluate(g, users, order, ok, rank);
      t, cells := Some(table), solution;
    }
  }
}
