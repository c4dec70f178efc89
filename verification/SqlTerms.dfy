/**
 Subterms of a SQL syntax tree: each term's immediate parts in field order, the terms a path of
 parts leads to, and what it means for an answer to be that of the first term to give one.
 */
module SqlTerms {
  import opened Wrappers
  import opened SqlAst

  datatype Term =
    | StatementTerm(statement: Statement)
    | QueryTerm(query: Query)
    | BodyTerm(body: SetExpr)
    | SelectTerm(select: Select)
    | ItemTerm(item: SelectItem)
    | FromTerm(from: FromItem)
    | ExprTerm(expr: Expr)

  ghost function Queries(qs: seq<Query>): seq<Term> {
    seq(|qs|, i requires 0 <= i < |qs| => QueryTerm(qs[i]))
  }

  ghost function Exprs(es: seq<Expr>): seq<Term> {
    seq(|es|, i requires 0 <= i < |es| => ExprTerm(es[i]))
  }

  ghost function Items(items: seq<SelectItem>): seq<Term> {
    seq(|items|, i requires 0 <= i < |items| => ItemTerm(items[i]))
  }

  ghost function Froms(items: seq<FromItem>): seq<Term> {
    seq(|items|, i requires 0 <= i < |items| => FromTerm(items[i]))
  }

  /** The immediate subterms. */
  ghost function Parts(t: Term): seq<Term> {
    match t
    case StatementTerm(QueryStatement(query)) => [QueryTerm(query)]
    case StatementTerm(Explain(_, statement)) => [StatementTerm(statement)]
    case StatementTerm(OtherStatement(exprs)) => Exprs(exprs)
    case QueryTerm(q) => Queries(q.ctes) + [BodyTerm(q.body)] + Exprs(q.orderBy) + Exprs(q.limit)
    case BodyTerm(SelectBody(select)) => [SelectTerm(select)]
    case BodyTerm(Nested(query)) => [QueryTerm(query)]
    case BodyTerm(SetOperation(left, right)) => [BodyTerm(left), BodyTerm(right)]
    case BodyTerm(OtherBody(exprs)) => Exprs(exprs)
    case SelectTerm(s) => Exprs(s.distinct) + Items(s.projection) + Froms(s.from) + Exprs(s.clauses)
    case ItemTerm(item) => if item.Item? then [ExprTerm(item.expr)] else []
    case FromTerm(Relation(_, args)) => Exprs(args)
    case FromTerm(Derived(query)) => [QueryTerm(query)]
    case FromTerm(TableFunction(expr)) => [ExprTerm(expr)]
    case FromTerm(Joined(items)) => Froms(items)
    case FromTerm(Condition(expr)) => [ExprTerm(expr)]
    case ExprTerm(Function(_, args)) => Exprs(args)
    case ExprTerm(Subquery(query)) => [QueryTerm(query)]
    case ExprTerm(OtherExpr(children)) => Exprs(children)
    case ExprTerm(_) => []
  }

  /** The parts the shape check goes on to: common table expressions, operands and nested queries. */
  ghost function SpineParts(t: Term): seq<Term> {
    match t
    case QueryTerm(q) => Queries(q.ctes) + [BodyTerm(q.body)]
    case BodyTerm(Nested(query)) => [QueryTerm(query)]
    case BodyTerm(SetOperation(left, right)) => [BodyTerm(left), BodyTerm(right)]
    case _ => []
  }

  // ---------- paths ----------

  /** Following the path from `root`, one part at a time, leads to `t`. */
  ghost predicate Leads(parts: Term -> seq<Term>, root: Term, path: seq<nat>, t: Term)
    decreases |path|
  {
    if path == [] then t == root
    else path[0] < |parts(root)| && Leads(parts, parts(root)[path[0]], path[1..], t)
  }

  ghost predicate Within(root: Term, t: Term) {
    exists path :: Leads(Parts, root, path, t)
  }

  ghost predicate OnSpine(root: Term, t: Term) {
    exists path :: Leads(SpineParts, root, path, t)
  }

  /** Document order: a term comes before its parts, and an earlier part before a later one. */
  ghost predicate Before(a: seq<nat>, b: seq<nat>) {
    if b == [] then false
    else a == [] || a[0] < b[0] || (a[0] == b[0] && Before(a[1..], b[1..]))
  }

  ghost predicate FirstAt<V>(parts: Term -> seq<Term>, answer: Term -> Option<V>, root: Term, path: seq<nat>, t: Term) {
    && Leads(parts, root, path, t) && answer(t).Some?
    && forall p, u | Leads(parts, root, p, u) && Before(p, path) :: answer(u) == None
  }

  /** `r` is the answer of the first term that gives one, and None when none does. */
  ghost predicate IsFirst<V>(parts: Term -> seq<Term>, answer: Term -> Option<V>, root: Term, r: Option<V>) {
    if r == None then forall p, u | Leads(parts, root, p, u) :: answer(u) == None
    else exists p, t :: FirstAt(parts, answer, root, p, t) && answer(t) == r
  }

  ghost function FirstSome<V>(answers: seq<Option<V>>): Option<V> {
    if answers == [] then None else if answers[0].Some? then answers[0] else FirstSome(answers[1..])
  }

  lemma {:induction false} FirstSomeIs<V>(answers: seq<Option<V>>)
    ensures FirstSome(answers) == None ==> forall i | 0 <= i < |answers| :: answers[i] == None
    ensures FirstSome(answers).Some? ==>
              exists i: nat :: i < |answers| && FirstSome(answers) == answers[i]
                               && forall j | 0 <= j < i :: answers[j] == None
  {
    if answers != [] && answers[0] == None {
      var rest := answers[1..];
      FirstSomeIs(rest);
      if FirstSome(rest).Some? {
        var i: nat :| i < |rest| && FirstSome(rest) == rest[i] && forall j | 0 <= j < i :: rest[j] == None;
        assert answers[i + 1] == rest[i] && forall j | 1 <= j < i + 1 :: answers[j] == rest[j - 1];
      } else {
        assert forall i | 1 <= i < |answers| :: answers[i] == rest[i - 1];
      }
    }
  }

  /** The first answer in a term is its own, or else the first of its parts' first answers. */
  lemma FirstOfParts<V>(parts: Term -> seq<Term>, answer: Term -> Option<V>, t: Term, rs: seq<Option<V>>)
    requires |rs| == |parts(t)| && forall i | 0 <= i < |rs| :: IsFirst(parts, answer, parts(t)[i], rs[i])
    ensures IsFirst(parts, answer, t, if answer(t).Some? then answer(t) else FirstSome(rs))
  {
    FirstSomeIs(rs);
    if answer(t).Some? {
      assert FirstAt(parts, answer, t, [], t);
    } else if FirstSome(rs) == None {
      forall p, u | Leads(parts, t, p, u) ensures answer(u) == None {
        if p != [] {
          assert IsFirst(parts, answer, parts(t)[p[0]], rs[p[0]]) && Leads(parts, parts(t)[p[0]], p[1..], u);
        }
      }
    } else {
      var i: nat :| i < |rs| && FirstSome(rs) == rs[i] && forall j | 0 <= j < i :: rs[j] == None;
      FirstInPart(parts, answer, t, rs, i);
    }
  }

  lemma FirstInPart<V>(parts: Term -> seq<Term>, answer: Term -> Option<V>, t: Term, rs: seq<Option<V>>, i: nat)
    requires |rs| == |parts(t)| && forall i | 0 <= i < |rs| :: IsFirst(parts, answer, parts(t)[i], rs[i])
    requires answer(t) == None && i < |rs| && rs[i].Some? && forall j | 0 <= j < i :: rs[j] == None
    ensures IsFirst(parts, answer, t, rs[i])
  {
    assert IsFirst(parts, answer, parts(t)[i], rs[i]);
    var p, u :| FirstAt(parts, answer, parts(t)[i], p, u) && answer(u) == rs[i];
    var path := [i] + p;
    assert path[1..] == p;
    forall p2, u2 | Leads(parts, t, p2, u2) && Before(p2, path) ensures answer(u2) == None {
      if p2 != [] {
        assert IsFirst(parts, answer, parts(t)[p2[0]], rs[p2[0]]) && Leads(parts, parts(t)[p2[0]], p2[1..], u2);
      }
    }
    assert FirstAt(parts, answer, t, path, u);
  }

  // ---------- induction over terms ----------

  ghost predicate All(holds: Term -> bool, ts: seq<Term>) {
    forall i | 0 <= i < |ts| :: holds(ts[i])
  }

  /** Holds of a term whenever it holds of its parts. */
  ghost predicate Hereditary(holds: Term -> bool) {
    forall t :: All(holds, Parts(t)) ==> holds(t)
  }

  lemma AllConcat(holds: Term -> bool, a: seq<Term>, b: seq<Term>)
    requires All(holds, a) && All(holds, b)
    ensures All(holds, a + b)
  {
  }

  lemma Inherits(holds: Term -> bool, t: Term)
    requires Hereditary(holds) && All(holds, Parts(t))
    ensures holds(t)
  {
  }

  lemma {:induction false} HoldsOfStatement(holds: Term -> bool, s: Statement)
    requires Hereditary(holds)
    ensures holds(StatementTerm(s))
    decreases s
  {
    hide Hereditary;
    match s {
      case QueryStatement(query) => HoldsOfQuery(holds, query);
      case Explain(_, statement) => HoldsOfStatement(holds, statement);
      case OtherStatement(exprs) => HoldsOfExprs(holds, exprs);
    }
    Inherits(holds, StatementTerm(s));
  }

  lemma {:induction false} HoldsOfQuery(holds: Term -> bool, q: Query)
    requires Hereditary(holds)
    ensures holds(QueryTerm(q))
    decreases q
  {
    hide Hereditary;
    forall i | 0 <= i < |q.ctes| ensures holds(QueryTerm(q.ctes[i])) {
      HoldsOfQuery(holds, q.ctes[i]);
    }
    HoldsOfBody(holds, q.body);
    HoldsOfExprs(holds, q.orderBy);
    HoldsOfExprs(holds, q.limit);
    assert All(holds, Queries(q.ctes));
    AllConcat(holds, Queries(q.ctes), [BodyTerm(q.body)]);
    hide All, Queries, Exprs;
    AllConcat(holds, Queries(q.ctes) + [BodyTerm(q.body)], Exprs(q.orderBy));
    AllConcat(holds, Queries(q.ctes) + [BodyTerm(q.body)] + Exprs(q.orderBy), Exprs(q.limit));
    Inherits(holds, QueryTerm(q));
  }

  lemma {:induction false} HoldsOfBody(holds: Term -> bool, b: SetExpr)
    requires Hereditary(holds)
    ensures holds(BodyTerm(b))
    decreases b
  {
    hide Hereditary;
    match b {
      case SelectBody(select) => HoldsOfSelect(holds, select);
      case Nested(query) => HoldsOfQuery(holds, query);
      case SetOperation(left, right) =>
        HoldsOfBody(holds, left);
        HoldsOfBody(holds, right);
      case OtherBody(exprs) => HoldsOfExprs(holds, exprs);
    }
    Inherits(holds, BodyTerm(b));
  }

  lemma {:induction false} HoldsOfSelect(holds: Term -> bool, s: Select)
    requires Hereditary(holds)
    ensures holds(SelectTerm(s))
    decreases s
  {
    hide Hereditary;
    forall i | 0 <= i < |s.projection| ensures holds(ItemTerm(s.projection[i])) {
      HoldsOfItem(holds, s.projection[i]);
    }
    forall i | 0 <= i < |s.from| ensures holds(FromTerm(s.from[i])) {
      HoldsOfFrom(holds, s.from[i]);
    }
    HoldsOfExprs(holds, s.distinct);
    HoldsOfExprs(holds, s.clauses);
    assert All(holds, Items(s.projection)) && All(holds, Froms(s.from));
    hide All, Items, Froms, Exprs;
    AllConcat(holds, Exprs(s.distinct), Items(s.projection));
    AllConcat(holds, Exprs(s.distinct) + Items(s.projection), Froms(s.from));
    AllConcat(holds, Exprs(s.distinct) + Items(s.projection) + Froms(s.from), Exprs(s.clauses));
    Inherits(holds, SelectTerm(s));
  }

  lemma {:induction false} HoldsOfItem(holds: Term -> bool, item: SelectItem)
    requires Hereditary(holds)
    ensures holds(ItemTerm(item))
    decreases item
  {
    hide Hereditary;
    if item.Item? {
      HoldsOfExpr(holds, item.expr);
    }
    Inherits(holds, ItemTerm(item));
  }

  lemma {:induction false} HoldsOfFrom(holds: Term -> bool, f: FromItem)
    requires Hereditary(holds)
    ensures holds(FromTerm(f))
    decreases f
  {
    hide Hereditary;
    match f {
      case Relation(_, args) => HoldsOfExprs(holds, args);
      case Derived(query) => HoldsOfQuery(holds, query);
      case TableFunction(expr) => HoldsOfExpr(holds, expr);
      case Joined(items) =>
        forall i | 0 <= i < |items| ensures holds(FromTerm(items[i])) {
          HoldsOfFrom(holds, items[i]);
        }
      case Condition(expr) => HoldsOfExpr(holds, expr);
    }
    Inherits(holds, FromTerm(f));
  }

  lemma {:induction false} HoldsOfExpr(holds: Term -> bool, e: Expr)
    requires Hereditary(holds)
    ensures holds(ExprTerm(e))
    decreases e, 1
  {
    hide Hereditary;
    match e {
      case Function(_, args) => HoldsOfExprs(holds, args);
      case Subquery(query) => HoldsOfQuery(holds, query);
      case OtherExpr(children) => HoldsOfExprs(holds, children);
      case _ =>
    }
    Inherits(holds, ExprTerm(e));
  }

  lemma {:induction false} HoldsOfExprs(holds: Term -> bool, es: seq<Expr>)
    requires Hereditary(holds)
    ensures All(holds, Exprs(es))
    decreases es, 0
  {
    hide Hereditary;
    forall i | 0 <= i < |es| ensures holds(ExprTerm(es[i])) {
      HoldsOfExpr(holds, es[i]);
    }
  }

  // ---------- the visitor's nodes are the terms in document order ----------

  /** What the visitor is given at a term. */
  ghost function NodeAt(t: Term): Option<Node> {
    match t
    case SelectTerm(s) => Some(SelectNode(s))
    case FromTerm(Relation(name, _)) => Some(RelationNode(name))
    case ExprTerm(e) => Some(ExprNode(e))
    case _ => None
  }

  ghost function Own(t: Term): seq<Node> {
    if NodeAt(t).Some? then [NodeAt(t).value] else []
  }

  ghost function NodesOf(t: Term): seq<Node> {
    match t
    case StatementTerm(s) => StatementNodes(s)
    case QueryTerm(q) => QueryNodes(q)
    case BodyTerm(b) => BodyNodes(b)
    case SelectTerm(s) => SelectNodes(s)
    case ItemTerm(item) => ItemNodes(item)
    case FromTerm(f) => FromNodes(f)
    case ExprTerm(e) => ExprNodes(e)
  }

  ghost function AllNodes(ts: seq<Term>): seq<Node> {
    if ts == [] then [] else NodesOf(ts[0]) + AllNodes(ts[1..])
  }

  lemma {:induction false} AllNodesConcat(a: seq<Term>, b: seq<Term>)
    ensures AllNodes(a + b) == AllNodes(a) + AllNodes(b)
  {
    if a == [] {
      assert a + b == b;
    } else {
      assert (a + b)[1..] == a[1..] + b;
      AllNodesConcat(a[1..], b);
    }
  }

  lemma AllNodesOfOne(t: Term)
    ensures AllNodes([t]) == NodesOf(t)
  {
    assert [t][1..] == [];
  }

  lemma {:induction false} AllNodesOfQueries(qs: seq<Query>)
    ensures AllNodes(Queries(qs)) == QueriesNodes(qs)
  {
    if qs != [] {
      assert Queries(qs)[1..] == Queries(qs[1..]);
      AllNodesOfQueries(qs[1..]);
    }
  }

  lemma {:induction false} AllNodesOfExprs(es: seq<Expr>)
    ensures AllNodes(Exprs(es)) == ExprsNodes(es)
  {
    if es != [] {
      assert Exprs(es)[1..] == Exprs(es[1..]);
      AllNodesOfExprs(es[1..]);
    }
  }

  lemma {:induction false} AllNodesOfItems(items: seq<SelectItem>)
    ensures AllNodes(Items(items)) == ItemsNodes(items)
  {
    if items != [] {
      assert Items(items)[1..] == Items(items[1..]);
      AllNodesOfItems(items[1..]);
    }
  }

  lemma {:induction false} AllNodesOfFroms(items: seq<FromItem>)
    ensures AllNodes(Froms(items)) == FromsNodes(items)
  {
    if items != [] {
      assert Froms(items)[1..] == Froms(items[1..]);
      AllNodesOfFroms(items[1..]);
    }
  }

  lemma QueryUnfolds(q: Query)
    ensures NodesOf(QueryTerm(q)) == AllNodes(Parts(QueryTerm(q)))
  {
    hide AllNodes, Queries, Exprs;
    AllNodesOfQueries(q.ctes);
    AllNodesOfOne(BodyTerm(q.body));
    AllNodesOfExprs(q.orderBy);
    AllNodesOfExprs(q.limit);
    AllNodesConcat(Queries(q.ctes), [BodyTerm(q.body)]);
    AllNodesConcat(Queries(q.ctes) + [BodyTerm(q.body)], Exprs(q.orderBy));
    AllNodesConcat(Queries(q.ctes) + [BodyTerm(q.body)] + Exprs(q.orderBy), Exprs(q.limit));
  }

  lemma SelectUnfolds(s: Select)
    ensures NodesOf(SelectTerm(s)) == [SelectNode(s)] + AllNodes(Parts(SelectTerm(s)))
  {
    hide AllNodes, Exprs, Items, Froms;
    AllNodesOfExprs(s.distinct);
    AllNodesOfItems(s.projection);
    AllNodesOfFroms(s.from);
    AllNodesOfExprs(s.clauses);
    AllNodesConcat(Exprs(s.distinct), Items(s.projection));
    AllNodesConcat(Exprs(s.distinct) + Items(s.projection), Froms(s.from));
    AllNodesConcat(Exprs(s.distinct) + Items(s.projection) + Froms(s.from), Exprs(s.clauses));
    var d, i, f, c := ExprsNodes(s.distinct), ItemsNodes(s.projection), FromsNodes(s.from), ExprsNodes(s.clauses);
    assert [SelectNode(s)] + d + i + f + c == [SelectNode(s)] + (d + i + f + c);
  }

  /** A term's nodes are its own and then its parts', in order. */
  lemma Unfolds(t: Term)
    ensures NodesOf(t) == Own(t) + AllNodes(Parts(t))
  {
    assert AllNodes([]) == [];
    hide AllNodes, Exprs, Froms, Items, Queries;
    match t
    case StatementTerm(QueryStatement(query)) => AllNodesOfOne(QueryTerm(query));
    case StatementTerm(Explain(_, statement)) => AllNodesOfOne(StatementTerm(statement));
    case StatementTerm(OtherStatement(exprs)) => AllNodesOfExprs(exprs);
    case QueryTerm(q) => QueryUnfolds(q);
    case BodyTerm(SelectBody(select)) => AllNodesOfOne(SelectTerm(select));
    case BodyTerm(Nested(query)) => AllNodesOfOne(QueryTerm(query));
    case BodyTerm(SetOperation(left, right)) =>
      AllNodesConcat([BodyTerm(left)], [BodyTerm(right)]);
      AllNodesOfOne(BodyTerm(left));
      AllNodesOfOne(BodyTerm(right));
      assert [BodyTerm(left)] + [BodyTerm(right)] == Parts(t);
    case BodyTerm(OtherBody(exprs)) => AllNodesOfExprs(exprs);
    case SelectTerm(s) => SelectUnfolds(s);
    case ItemTerm(item) =>
      if item.Item? {
        AllNodesOfOne(ExprTerm(item.expr));
      }
    case FromTerm(Relation(_, args)) => AllNodesOfExprs(args);
    case FromTerm(Derived(query)) => AllNodesOfOne(QueryTerm(query));
    case FromTerm(TableFunction(expr)) => AllNodesOfOne(ExprTerm(expr));
    case FromTerm(Joined(items)) => AllNodesOfFroms(items);
    case FromTerm(Condition(expr)) => AllNodesOfOne(ExprTerm(expr));
    case ExprTerm(Function(_, args)) => AllNodesOfExprs(args);
    case ExprTerm(Subquery(query)) => AllNodesOfOne(QueryTerm(query));
    case ExprTerm(OtherExpr(children)) => AllNodesOfExprs(children);
    case ExprTerm(_) =>
  }

  ghost predicate Occurs(root: Term, n: Node) {
    exists path, t :: Leads(Parts, root, path, t) && NodeAt(t) == Some(n)
  }

  lemma {:induction false} InAllNodes(ts: seq<Term>, n: Node)
    ensures n in AllNodes(ts) <==> exists i | 0 <= i < |ts| :: n in NodesOf(ts[i])
  {
    hide NodesOf;
    if ts != [] {
      InAllNodes(ts[1..], n);
      assert forall i | 1 <= i < |ts| :: ts[i] == ts[1..][i - 1];
    }
  }

  lemma OccursInPart(t: Term, i: nat, n: Node)
    requires i < |Parts(t)| && Occurs(Parts(t)[i], n)
    ensures Occurs(t, n)
  {
    var path, u :| Leads(Parts, Parts(t)[i], path, u) && NodeAt(u) == Some(n);
    assert ([i] + path)[1..] == path;
    assert Leads(Parts, t, [i] + path, u);
  }

  lemma {:induction false} LeadsToNodes(root: Term, path: seq<nat>, t: Term, n: Node)
    requires Leads(Parts, root, path, t) && NodeAt(t) == Some(n)
    ensures n in NodesOf(root)
    decreases |path|
  {
    hide NodesOf, Parts;
    Unfolds(root);
    InAllNodes(Parts(root), n);
    if path != [] {
      LeadsToNodes(Parts(root)[path[0]], path[1..], t, n);
    }
  }

  lemma VisitedOccurs(t: Term, n: Node)
    requires n in NodesOf(t)
    requires forall i | 0 <= i < |Parts(t)| :: n in NodesOf(Parts(t)[i]) ==> Occurs(Parts(t)[i], n)
    ensures Occurs(t, n)
  {
    hide NodesOf, Parts, Occurs;
    Unfolds(t);
    InAllNodes(Parts(t), n);
    if i: nat :| i < |Parts(t)| && n in NodesOf(Parts(t)[i]) {
      OccursInPart(t, i, n);
    } else {
      OccursHere(t, n);
    }
  }

  lemma OccursHere(t: Term, n: Node)
    requires NodeAt(t) == Some(n)
    ensures Occurs(t, n)
  {
    assert Leads(Parts, t, [], t);
  }

  /** The visitor is given exactly the nodes of the terms within a statement. */
  lemma VisitedIffWithin(s: Statement, n: Node)
    ensures n in StatementNodes(s) <==> exists t :: Within(StatementTerm(s), t) && NodeAt(t) == Some(n)
  {
    var root := StatementTerm(s);
    if n in StatementNodes(s) {
      var holds := (t: Term) => n in NodesOf(t) ==> Occurs(t, n);
      forall t | All(holds, Parts(t)) ensures holds(t) {
        if n in NodesOf(t) {
          assert forall i | 0 <= i < |Parts(t)| :: holds(Parts(t)[i]);
          VisitedOccurs(t, n);
        }
      }
      HoldsOfStatement(holds, s);
      assert holds(root);
      var path, t :| Leads(Parts, root, path, t) && NodeAt(t) == Some(n);
      assert Within(root, t);
    }
    if t :| Within(root, t) && NodeAt(t) == Some(n) {
      var path :| Leads(Parts, root, path, t);
      LeadsToNodes(root, path, t, n);
    }
  }
}
