/**
 The part of the sqlparser syntax tree the SQL policy looks at, and the order its derived
 traversal visits nodes in: each node before its children, children in field order.
 */
module SqlAst {
  import opened Wrappers

  /** Name parts; a part that is not an identifier is None. */
  type ObjectName = seq<Option<string>>

  datatype Statement =
    | QueryStatement(query: Query)
    | Explain(analyze: bool, statement: Statement)
    | OtherStatement(exprs: seq<Expr>)

  datatype Query = Query(ctes: seq<Query>, body: SetExpr, orderBy: seq<Expr>, limit: seq<Expr>, locks: nat)

  datatype SetExpr =
    | SelectBody(select: Select)
    | Nested(query: Query)
    | SetOperation(left: SetExpr, right: SetExpr)
    | OtherBody(exprs: seq<Expr>)            // VALUES, INSERT, UPDATE, TABLE, ...

  /** `distinct` holds the expressions of DISTINCT ON, `clauses` those after FROM. */
  datatype Select = Select(
    distinct: seq<Expr>,
    projection: seq<SelectItem>,
    into: bool,
    from: seq<FromItem>,
    clauses: seq<Expr>)

  datatype SelectItem = Item(expr: Expr) | Wildcard | QualifiedWildcard

  /** A joined table is its factors, each followed by its join condition. */
  datatype FromItem =
    | Relation(name: ObjectName, args: seq<Expr>)
    | Derived(query: Query)
    | TableFunction(expr: Expr)
    | Joined(items: seq<FromItem>)
    | Condition(expr: Expr)

  datatype Expr =
    | Identifier(ident: string)
    | CompoundIdentifier(parts: seq<string>)
    | Function(name: ObjectName, args: seq<Expr>)
    | Subquery(query: Query)
    | OtherExpr(children: seq<Expr>)

  /** What a visitor's callbacks are given. */
  datatype Node = RelationNode(name: ObjectName) | ExprNode(expr: Expr) | SelectNode(select: Select)

  // ---------- pre-order ----------

  function StatementNodes(s: Statement): seq<Node>
    decreases s, 1
  {
    match s
    case QueryStatement(query) => QueryNodes(query)
    case Explain(_, statement) => StatementNodes(statement)
    case OtherStatement(exprs) => ExprsNodes(exprs)
  }

  function QueryNodes(q: Query): seq<Node>
    decreases q, 1
  {
    QueriesNodes(q.ctes) + BodyNodes(q.body) + ExprsNodes(q.orderBy) + ExprsNodes(q.limit)
  }

  function QueriesNodes(qs: seq<Query>): seq<Node>
    decreases qs, 0
  {
    if qs == [] then [] else QueryNodes(qs[0]) + QueriesNodes(qs[1..])
  }

  function BodyNodes(b: SetExpr): seq<Node>
    decreases b, 1
  {
    match b
    case SelectBody(select) => SelectNodes(select)
    case Nested(query) => QueryNodes(query)
    case SetOperation(left, right) => BodyNodes(left) + BodyNodes(right)
    case OtherBody(exprs) => ExprsNodes(exprs)
  }

  function SelectNodes(s: Select): seq<Node>
    decreases s, 1
  {
    [SelectNode(s)] + ExprsNodes(s.distinct) + ItemsNodes(s.projection) + FromsNodes(s.from) + ExprsNodes(s.clauses)
  }

  function ItemsNodes(items: seq<SelectItem>): seq<Node>
    decreases items, 0
  {
    if items == [] then [] else ItemNodes(items[0]) + ItemsNodes(items[1..])
  }

  function ItemNodes(item: SelectItem): seq<Node>
    decreases item, 1
  {
    if item.Item? then ExprNodes(item.expr) else []
  }

  function FromNodes(f: FromItem): seq<Node>
    decreases f, 1
  {
    match f
    case Relation(name, args) => [RelationNode(name)] + ExprsNodes(args)
    case Derived(query) => QueryNodes(query)
    case TableFunction(expr) => ExprNodes(expr)
    case Joined(items) => FromsNodes(items)
    case Condition(expr) => ExprNodes(expr)
  }

  function FromsNodes(items: seq<FromItem>): seq<Node>
    decreases items, 0
  {
    if items == [] then [] else FromNodes(items[0]) + FromsNodes(items[1..])
  }

  function ExprNodes(e: Expr): seq<Node>
    decreases e, 1
  {
    [ExprNode(e)]
    + match e
      case Function(_, args) => ExprsNodes(args)
      case Subquery(query) => QueryNodes(query)
      case OtherExpr(children) => ExprsNodes(children)
      case _ => []
  }

  function ExprsNodes(es: seq<Expr>): seq<Node>
    decreases es, 0
  {
    if es == [] then [] else ExprNodes(es[0]) + ExprsNodes(es[1..])
  }
}
