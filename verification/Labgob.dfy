/** The walk over the types of values to be encoded, which complains once about every
    lower-case struct field, on type graphs of any shape. */
module Labgob {
  import opened Sequences

  datatype Field = Field(name: string, typ: nat)

  datatype Type =
    | Struct(fields: seq<Field>)
    | Sequence(elem: nat)          // slice, array or pointer
    | Map(elem: nat, key: nat)
    | Basic

  /** Finitely many types that refer to each other by number, and which characters count as upper case. */
  datatype Graph = Graph(types: seq<Type>, isUpper: char -> bool)
  {
    ghost predicate Valid() {
      forall t :: 0 <= t < |types| ==> forall u :: u in Successors(t) ==> u < |types|
    }

    /** `t` has a field of type `u`, or `u` is its element or key type. */
    ghost predicate Refers(t: nat, u: nat)
      requires t < |types|
    {
      match types[t]
      case Struct(fields) => exists i :: 0 <= i < |fields| && fields[i].typ == u
      case Sequence(elem) => u == elem
      case Map(elem, key) => u == elem || u == key
      case Basic => false
    }

    /** The types that `t` directly refers to. */
    ghost function Successors(t: nat): (r: set<nat>)
      requires t < |types|
      ensures forall u :: u in r <==> Refers(t, u)
    {
      match types[t]
      case Struct(fields) => set i | 0 <= i < |fields| :: fields[i].typ
      case Sequence(elem) => {elem}
      case Map(elem, key) => {elem, key}
      case Basic => {}
    }

    predicate LowerCase(f: Field) { f.name == "" || !isUpper(f.name[0]) }

    function LowerFields(fields: seq<Field>): nat {
      if fields == [] then 0 else
        LowerFields(fields[..|fields| - 1]) + if LowerCase(fields[|fields| - 1]) then 1 else 0
    }

    /** How many complaints the type `t` itself is worth. */
    function Complaints(t: nat): nat
      requires t < |types|
    {
      if types[t].Struct? then LowerFields(types[t].fields) else 0
    }

    /** Complaints over the types in `s` below `k`. */
    ghost function ComplaintsBelow(s: set<nat>, k: nat): nat
      requires k <= |types|
    {
      if k == 0 then 0 else ComplaintsBelow(s, k - 1) + if k - 1 in s then Complaints(k - 1) else 0
    }

    ghost function TotalComplaints(s: set<nat>): nat { ComplaintsBelow(s, |types|) }

    ghost function All(): set<nat> { AllIds(|types|) }

    /** `path` follows references from `t` to `u`. */
    ghost predicate Path(path: seq<nat>, t: nat, u: nat) {
      && path != [] && path[0] == t && path[|path| - 1] == u
      && (forall i :: 0 <= i < |path| ==> path[i] < |types|)
      && (forall i :: 0 < i < |path| ==> Refers(path[i - 1], path[i]))
    }

    ghost predicate Reachable(t: nat, u: nat) { exists path :: Path(path, t, u) }
  }

  lemma {:induction false} ComplaintsAdd(g: Graph, s: set<nat>, t: nat, k: nat)
    requires k <= |g.types| && t < |g.types| && t !in s
    ensures g.ComplaintsBelow(s + {t}, k) == g.ComplaintsBelow(s, k) + if t < k then g.Complaints(t) else 0
  {
    if k > 0 { ComplaintsAdd(g, s, t, k - 1); }
  }

  lemma ReachableSelf(g: Graph, t: nat)
    requires t < |g.types|
    ensures g.Reachable(t, t)
  {
    assert g.Path([t], t, t);
  }

  lemma ReachableVia(g: Graph, t: nat, v: nat, u: nat)
    requires t < |g.types| && v in g.Successors(t) && g.Reachable(v, u)
    ensures g.Reachable(t, u)
  {
    var path :| g.Path(path, v, u);
    var longer := [t] + path;
    forall i | 0 < i < |longer| ensures g.Refers(longer[i - 1], longer[i]) {
      if i > 1 { assert g.Refers(path[i - 2], path[i - 1]); }
    }
    assert g.Path(longer, t, u);
  }

  /** All references of the types in `s`, except those of the types in `open`, stay in `s`. */
  ghost predicate ClosedExcept(g: Graph, s: set<nat>, open: set<nat>) {
    forall t :: t in s && t !in open && t < |g.types| ==> g.Successors(t) <= s
  }

  lemma {:induction false} ClosedReaches(g: Graph, s: set<nat>, path: seq<nat>, t: nat, u: nat)
    requires ClosedExcept(g, s, {}) && t in s && g.Path(path, t, u)
    ensures u in s
  {
    if |path| > 1 {
      var k := |path| - 1;
      ClosedReaches(g, s, path[..k], t, path[k - 1]);
      assert g.Refers(path[k - 1], path[k]);
    }
  }

  lemma {:induction false} NoComplaints(g: Graph, k: nat)
    requires k <= |g.types|
    ensures g.ComplaintsBelow({}, k) == 0
  {
    if k > 0 { NoComplaints(g, k - 1); }
  }

  // ---------------------------------------------------------------------------------
  // What is counted

  /** Field `i` of the struct `t` has a name that does not start with an upper-case letter. */
  ghost predicate LowerField(g: Graph, t: nat, i: nat) {
    && t < |g.types| && g.types[t].Struct? && i < |g.types[t].fields|
    && var name := g.types[t].fields[i].name;
       name == "" || !g.isUpper(name[0])
  }

  /** The lower-case fields, by type and index, of the structs in `s` below `k`. */
  ghost function LowerPairs(g: Graph, s: set<nat>, k: nat): set<(nat, nat)>
    requires k <= |g.types|
  {
    set t: nat, i: nat | t in s && t < k && g.types[t].Struct? && i < |g.types[t].fields| && LowerField(g, t, i) :: (t, i)
  }

  /** The same for the first `n` fields of one struct. */
  ghost function LowerPairsOf(g: Graph, t: nat, n: nat): set<(nat, nat)>
    requires t < |g.types| && g.types[t].Struct? && n <= |g.types[t].fields|
  {
    set i: nat | i < n && LowerField(g, t, i) :: (t, i)
  }

  lemma {:induction false} LowerFieldsCount(g: Graph, t: nat, n: nat)
    requires t < |g.types| && g.types[t].Struct? && n <= |g.types[t].fields|
    ensures g.LowerFields(g.types[t].fields[..n]) == |LowerPairsOf(g, t, n)|
  {
    if n > 0 {
      LowerFieldsCount(g, t, n - 1);
      var fields, more, less := g.types[t].fields, LowerPairsOf(g, t, n), LowerPairsOf(g, t, n - 1);
      assert fields[..n][..n - 1] == fields[..n - 1] && fields[..n][n - 1] == fields[n - 1];
      assert (t, n - 1) !in less;
      assert more == less + if g.LowerCase(fields[n - 1]) then {(t, n - 1)} else {};
    }
  }

  lemma PairsSplit(g: Graph, s: set<nat>, k: nat, less: set<(nat, nat)>, own: set<(nat, nat)>)
    requires 0 < k <= |g.types| && k - 1 in s && g.types[k - 1].Struct?
    requires less == LowerPairs(g, s, k - 1) && own == LowerPairsOf(g, k - 1, |g.types[k - 1].fields|)
    ensures |LowerPairs(g, s, k)| == |less| + |own|
  {
    hide LowerField;
    assert LowerPairs(g, s, k) == less + own;
    assert less !! own;
  }

  /** The complaints over `s` are one for each lower-case field of each struct in `s`. */
  lemma {:induction false} ComplaintsCount(g: Graph, s: set<nat>, k: nat)
    requires k <= |g.types|
    ensures g.ComplaintsBelow(s, k) == |LowerPairs(g, s, k)|
  {
    if k > 0 {
      ComplaintsCount(g, s, k - 1);
      hide LowerField;
      var less, t := LowerPairs(g, s, k - 1), k - 1;
      if t in s && g.types[t].Struct? {
        var own := LowerPairsOf(g, t, |g.types[t].fields|);
        LowerFieldsCount(g, t, |g.types[t].fields|);
        assert g.types[t].fields[..|g.types[t].fields|] == g.types[t].fields;
        PairsSplit(g, s, k, less, own);
      } else {
        assert LowerPairs(g, s, k) == less;
      }
    }
  }

  /** A visit of `t` has added only types that can be reached from it. */
  ghost predicate Gained(g: Graph, t: nat, before: set<nat>, after: set<nat>) {
    before <= after <= g.All() && forall u :: u in after && u !in before ==> g.Reachable(t, u)
  }

  lemma GainedMore(g: Graph, t: nat, a: set<nat>, b: set<nat>, c: set<nat>)
    requires Gained(g, t, a, b) && b <= c <= g.All() && forall u :: u in c && u !in b ==> g.Reachable(t, u)
    ensures Gained(g, t, a, c)
  {
  }

  lemma GainedMeans(g: Graph, t: nat, before: set<nat>, after: set<nat>)
    requires Gained(g, t, before, after)
    ensures before <= after <= g.All() && forall u :: u in after && u !in before ==> g.Reachable(t, u)
  {
  }

  lemma LowerFieldsNext(g: Graph, fields: seq<Field>, i: nat)
    requires i < |fields|
    ensures g.LowerFields(fields[..i + 1]) == g.LowerFields(fields[..i]) + if g.LowerCase(fields[i]) then 1 else 0
  {
    assert fields[..i + 1][..i] == fields[..i];
  }

  lemma FieldTypes(g: Graph, t: nat, fields: seq<Field>)
    requires t < |g.types| && g.types[t] == Struct(fields)
    ensures forall i :: 0 <= i < |fields| ==> fields[i].typ in g.Successors(t)
    ensures forall u :: u in g.Successors(t) ==> exists i :: 0 <= i < |fields| && fields[i].typ == u
  {
  }

  /** The global table of checked types and the complaint counter. */
  class Checker {
    const graph: Graph
    var checked: set<nat>
    var errorCount: nat

    /** Between calls: the table is closed under references, and every checked type has been counted once. */
    ghost predicate Valid()
      reads this
    {
      && graph.Valid() && checked <= graph.All()
      && ClosedExcept(graph, checked, {})
      && errorCount == graph.TotalComplaints(checked)
    }

    constructor (graph: Graph)
      requires graph.Valid()
      ensures this.graph == graph && checked == {} && Valid()
    {
      this.graph := graph;
      checked, errorCount := {}, 0;
      new;
      NoComplaints(graph, |graph.types|);
    }

    /** One visit, while the types in `open` are still being visited further up. */
    method CheckType(t: nat, ghost open: set<nat>)
      requires graph.Valid() && t < |graph.types| && checked <= graph.All()
      requires ClosedExcept(graph, checked, open)
      modifies this`checked, this`errorCount
      ensures old(checked) <= checked <= graph.All() && t in checked
      ensures ClosedExcept(graph, checked, open)
      ensures forall u :: u in checked && u !in old(checked) ==> graph.Reachable(t, u)
      ensures errorCount + graph.TotalComplaints(old(checked)) == old(errorCount) + graph.TotalComplaints(checked)
      decreases graph.All() - checked, 0
    {
      if t in checked {
        return;
      }
      ComplaintsAdd(graph, checked, t, |graph.types|);
      ReachableSelf(graph, t);
      checked := checked + {t};
      match graph.types[t]
      case Struct(fields) =>
        CheckFields(t, fields, open);
      case Sequence(elem) =>
        VisitSuccessor(t, elem, open);
      case Map(elem, key) =>
        VisitSuccessor(t, elem, open);
        VisitSuccessor(t, key, open);
      case Basic =>
    }

    /** Complains about the lower-case fields of `t` and visits the types of all its fields. */
    method CheckFields(t: nat, fields: seq<Field>, ghost open: set<nat>)
      requires graph.Valid() && t < |graph.types| && t in checked && checked <= graph.All()
      requires graph.types[t] == Struct(fields) && ClosedExcept(graph, checked, open + {t})
      modifies this`checked, this`errorCount
      ensures old(checked) <= checked <= graph.All()
      ensures ClosedExcept(graph, checked, open + {t}) && graph.Successors(t) <= checked
      ensures forall u :: u in checked && u !in old(checked) ==> graph.Reachable(t, u)
      ensures errorCount + graph.TotalComplaints(old(checked)) ==
              old(errorCount) + graph.TotalComplaints(checked) + graph.Complaints(t)
      decreases graph.All() - checked, 3
    {
      FieldTypes(graph, t, fields);
      assert Gained(graph, t, checked, checked) && graph.LowerFields(fields[..0]) == 0;
      hide ClosedExcept, Gained;
      for i := 0 to |fields|
        invariant Gained(graph, t, old(checked), checked) && old(checked) <= checked <= graph.All()
        invariant ClosedExcept(graph, checked, open + {t})
        invariant forall j :: 0 <= j < i ==> fields[j].typ in checked
        invariant errorCount + graph.TotalComplaints(old(checked)) ==
                  old(errorCount) + graph.TotalComplaints(checked) + graph.LowerFields(fields[..i])
      {
        LowerFieldsNext(graph, fields, i);
        ghost var before := checked;
        CheckField(t, fields[i], open);
        GainedMore(graph, t, old(checked), before, checked);
      }
      assert fields[..|fields|] == fields;
      GainedMeans(graph, t, old(checked), checked);
    }

    /** One turn of that loop. */
    method CheckField(t: nat, f: Field, ghost open: set<nat>)
      requires graph.Valid() && t < |graph.types| && t in checked && checked <= graph.All()
      requires f.typ in graph.Successors(t) && ClosedExcept(graph, checked, open + {t})
      modifies this`checked, this`errorCount
      ensures old(checked) <= checked <= graph.All() && f.typ in checked
      ensures ClosedExcept(graph, checked, open + {t})
      ensures forall u :: u in checked && u !in old(checked) ==> graph.Reachable(t, u)
      ensures errorCount + graph.TotalComplaints(old(checked)) ==
              old(errorCount) + graph.TotalComplaints(checked) + if graph.LowerCase(f) then 1 else 0
      decreases graph.All() - checked, 2
    {
      if f.name == "" || !graph.isUpper(f.name[0]) {
        errorCount := errorCount + 1;
      }
      VisitSuccessor(t, f.typ, open);
    }

    /** The recursive visit of a type that `t` refers to. */
    method VisitSuccessor(t: nat, v: nat, ghost open: set<nat>)
      requires graph.Valid() && t < |graph.types| && t in checked && checked <= graph.All()
      requires v in graph.Successors(t) && ClosedExcept(graph, checked, open + {t})
      modifies this`checked, this`errorCount
      ensures old(checked) <= checked <= graph.All() && v in checked
      ensures ClosedExcept(graph, checked, open + {t})
      ensures forall u :: u in checked && u !in old(checked) ==> graph.Reachable(t, u)
      ensures errorCount + graph.TotalComplaints(old(checked)) == old(errorCount) + graph.TotalComplaints(checked)
      decreases graph.All() - checked, 1
    {
      CheckType(v, open + {t});
      forall u | u in checked && u !in old(checked) ensures graph.Reachable(t, u) {
        ReachableVia(graph, t, v, u);
      }
    }

    /** A top-level check: the table gains exactly the types reachable from `t`, holds with each type the types of its
        fields, its element and its key type, and the counter stays the number of lower-case fields of all types ever
        checked, each counted once over the whole run. */
    method CheckValue(t: nat)
      requires Valid() && t < |graph.types|
      modifies this`checked, this`errorCount
      ensures Valid()
      ensures forall u :: u in checked <==> u in old(checked) || graph.Reachable(t, u)
      ensures checked <= graph.All() && forall u :: u in checked ==>
                match graph.types[u]
                case Struct(fields) => forall i :: 0 <= i < |fields| ==> fields[i].typ in checked
                case Sequence(elem) => elem in checked
                case Map(elem, key) => elem in checked && key in checked
                case Basic => true
      ensures errorCount == |LowerPairs(graph, checked, |graph.types|)|
    {
      CheckType(t, {});
      ComplaintsCount(graph, checked, |graph.types|);
      forall u, v | u in checked && graph.Refers(u, v) ensures v in checked {
        assert v in graph.Successors(u);
      }
      forall u | graph.Reachable(t, u) ensures u in checked {
        var path :| graph.Path(path, t, u);
        ClosedReaches(graph, checked, path, t, u);
      }
    }
  }
}
