/**
 What sql_query accepts (backend/crates/service/src/sql_query/policy.rs): the shape check on the
 query's spine, and the visitor that stops at the first node the credential policy forbids.
 */
module SqlPolicy {
  import opened Wrappers
  import opened Text
  import opened SqlAst
  import opened SqlTerms

  datatype Policy = Policy(
    allowMetadata: bool,
    allowExplain: bool,
    allowExplainAnalyze: bool,
    deniedFunctions: seq<string>)

  const BUILTIN_DENIED_FUNCTIONS := {
    "dblink", "lo_export", "lo_import", "pg_advisory_lock", "pg_advisory_xact_lock", "pg_cancel_backend",
    "pg_read_binary_file", "pg_read_file", "pg_sleep", "pg_terminate_backend", "set_config"}

  datatype Violation =
    | MetadataAccess
    | FunctionSchema(schema: string)
    | BuiltinDenied(function_: string)
    | PolicyDenied(function_: string)

  datatype Refusal =
    | SyntaxError
    | StatementCount
    | StatementKind
    | ExplainNotAllowed
    | AnalyzeNotAllowed
    | ExplainTarget
    | LockingClause
    | SelectInto
    | BodyKind
    | Forbidden(violation: Violation)

  // ---------- names ----------

  function NormalizeIdent(s: string): string {
    Lower(Trim(s))
  }

  function NameParts(name: ObjectName): seq<string> {
    if name == [] then []
    else (if name[0].Some? then [NormalizeIdent(name[0].value)] else []) + NameParts(name[1..])
  }

  /** The identifiers of a name in order, trimmed and lower-cased; other parts give nothing. */
  lemma {:induction false} NamePartsAre(a: ObjectName, b: ObjectName, ident: string)
    ensures NameParts(a + b) == NameParts(a) + NameParts(b)
    ensures NameParts([]) == NameParts([None]) == [] && NameParts([Some(ident)]) == [Lower(Trim(ident))]
  {
    hide Trim, Lower;
    var none: ObjectName, some: ObjectName := [None], [Some(ident)];
    assert none[1..] == [] && some[1..] == [];
    if a == [] {
      assert a + b == b;
    } else {
      assert (a + b)[1..] == a[1..] + b;
      NamePartsAre(a[1..], b, ident);
    }
  }

  function JoinDots(parts: seq<string>): string {
    if parts == [] then "" else if |parts| == 1 then parts[0] else parts[0] + "." + JoinDots(parts[1..])
  }

  lemma {:induction false} JoinDotsSnoc(parts: seq<string>, last: string)
    ensures JoinDots(parts + [last]) == if parts == [] then last else JoinDots(parts) + "." + last
  {
    if parts == [] {
      assert parts + [last] == [last];
    } else {
      assert (parts + [last])[1..] == parts[1..] + [last];
      JoinDotsSnoc(parts[1..], last);
    }
  }

  predicate IsMetadataSchema(s: string) {
    s == "pg_catalog" || s == "information_schema"
  }

  predicate IsMetadataRelation(name: ObjectName) {
    var parts := NameParts(name);
    if parts == [] then false
    else if |parts| == 1 then StartsWith(parts[0], "pg_")
    else IsMetadataSchema(parts[|parts| - 2])
  }

  // ---------- one node ----------

  predicate IsBuiltin(name: string) {
    name in BUILTIN_DENIED_FUNCTIONS
  }

  /** Unqualified denied names match any schema, qualified ones the full name only. */
  predicate Denied(policy: Policy, full: string, short: string) {
    exists i | 0 <= i < |policy.deniedFunctions| ::
      var denied := NormalizeIdent(policy.deniedFunctions[i]);
      denied != "" && denied == if '.' in denied then full else short
  }

  function CheckCandidates(policy: Policy, full: string, short: string, isCall: bool): Option<Violation> {
    if isCall && (IsBuiltin(short) || IsBuiltin(full)) then Some(BuiltinDenied(full))
    else if Denied(policy, full, short) then Some(PolicyDenied(full))
    else None
  }

  function CheckFunctionName(policy: Policy, name: ObjectName): Option<Violation> {
    var parts := NameParts(name);
    if parts == [] then None
    else if !policy.allowMetadata && |parts| > 1 && IsMetadataSchema(parts[0]) then Some(FunctionSchema(parts[0]))
    else CheckCandidates(policy, JoinDots(parts), parts[|parts| - 1], true)
  }

  function CheckIdent(policy: Policy, ident: string): Option<Violation> {
    CheckCandidates(policy, NormalizeIdent(ident), NormalizeIdent(ident), false)
  }

  function Check(policy: Policy, node: Node): Option<Violation> {
    match node
    case RelationNode(name) =>
      if !policy.allowMetadata && IsMetadataRelation(name) then Some(MetadataAccess)
      else CheckFunctionName(policy, name)
    case ExprNode(Function(name, _)) => CheckFunctionName(policy, name)
    case ExprNode(Identifier(ident)) => CheckIdent(policy, ident)
    case ExprNode(CompoundIdentifier(parts)) => if parts == [] then None else CheckIdent(policy, parts[|parts| - 1])
    case _ => None
  }

  /** The first violation in visiting order. */
  ghost function FirstViolation(policy: Policy, nodes: seq<Node>): Option<Violation> {
    if nodes == [] then None
    else if Check(policy, nodes[0]).Some? then Check(policy, nodes[0])
    else FirstViolation(policy, nodes[1..])
  }

  lemma {:induction false} FirstViolationConcat(policy: Policy, a: seq<Node>, b: seq<Node>)
    ensures FirstViolation(policy, a + b)
            == if FirstViolation(policy, a).Some? then FirstViolation(policy, a) else FirstViolation(policy, b)
  {
    if a == [] {
      assert a + b == b;
    } else {
      assert (a + b)[1..] == a[1..] + b;
      FirstViolationConcat(policy, a[1..], b);
    }
  }

  ghost predicate NothingForbidden(policy: Policy, nodes: seq<Node>) {
    forall i | 0 <= i < |nodes| :: Check(policy, nodes[i]) == None
  }

  /** No violation exactly when no visited node is forbidden; otherwise the one reported is the
      first forbidden node's. */
  lemma {:induction false} FirstViolationIsFirst(policy: Policy, nodes: seq<Node>)
    ensures FirstViolation(policy, nodes) == None <==> NothingForbidden(policy, nodes)
    ensures FirstViolation(policy, nodes).Some? ==>
              exists i | 0 <= i < |nodes| ::
                FirstViolation(policy, nodes) == Check(policy, nodes[i])
                && forall j | 0 <= j < i :: Check(policy, nodes[j]) == None
  {
    if nodes != [] && Check(policy, nodes[0]) == None {
      FirstViolationIsFirst(policy, nodes[1..]);
      var rest := nodes[1..];
      if FirstViolation(policy, rest).Some? {
        var i :| 0 <= i < |rest| && FirstViolation(policy, rest) == Check(policy, rest[i])
                 && forall j | 0 <= j < i :: Check(policy, rest[j]) == None;
        assert forall j | 0 <= j < i + 1 :: Check(policy, nodes[j]) == None;
        assert nodes[i + 1] == rest[i];
      }
      assert forall i | 1 <= i < |nodes| :: nodes[i] == rest[i - 1];
    }
  }

  // ---------- what is forbidden ----------

  const METADATA_SCHEMAS := {"pg_catalog", "information_schema"}

  /** A function call, or a relation, which a call in FROM is parsed as. */
  ghost function CalledName(t: Term): Option<ObjectName> {
    match t
    case ExprTerm(Function(name, _)) => Some(name)
    case FromTerm(Relation(name, _)) => Some(name)
    case _ => None
  }

  ghost predicate CallsBuiltin(t: Term) {
    CalledName(t).Some? &&
    var parts := NameParts(CalledName(t).value);
    parts != [] && (IsBuiltin(parts[|parts| - 1]) || IsBuiltin(JoinDots(parts)))
  }

  /** A dotted entry is a full name, another one the last part of a name; a blank one names nothing. */
  ghost predicate DeniedBy(policy: Policy, full: string, short: string) {
    exists entry <- policy.deniedFunctions ::
      Lower(Trim(entry)) != "" && (if '.' in Lower(Trim(entry)) then Lower(Trim(entry)) == full
                                   else Lower(Trim(entry)) == short)
  }

  ghost predicate NamesDenied(policy: Policy, t: Term) {
    if CalledName(t).Some? then
      var parts := NameParts(CalledName(t).value);
      parts != [] && DeniedBy(policy, JoinDots(parts), parts[|parts| - 1])
    else
      match t
      case ExprTerm(Identifier(ident)) => DeniedBy(policy, Lower(Trim(ident)), Lower(Trim(ident)))
      case ExprTerm(CompoundIdentifier(idents)) =>
        idents != [] && DeniedBy(policy, Lower(Trim(idents[|idents| - 1])), Lower(Trim(idents[|idents| - 1])))
      case _ => false
  }

  /** A relation that is a catalog table. */
  ghost predicate IsCatalogRelation(t: Term) {
    t.FromTerm? && CalledName(t).Some? &&
    var parts := NameParts(CalledName(t).value);
    if |parts| == 1 then "pg_" <= parts[0] else |parts| > 1 && parts[|parts| - 2] in METADATA_SCHEMAS
  }

  /** A catalog relation, or a name qualified first by a metadata schema. */
  ghost predicate TouchesMetadata(t: Term) {
    || IsCatalogRelation(t)
    || (CalledName(t).Some? &&
        var parts := NameParts(CalledName(t).value);
        |parts| > 1 && parts[0] in METADATA_SCHEMAS)
  }

  ghost predicate Innocent(policy: Policy, t: Term) {
    !CallsBuiltin(t) && !NamesDenied(policy, t) && (policy.allowMetadata || !TouchesMetadata(t))
  }

  ghost function Verdict(policy: Policy, t: Term): Option<Violation> {
    if NodeAt(t).Some? then Check(policy, NodeAt(t).value) else None
  }

  ghost function VerdictOf(policy: Policy): Term -> Option<Violation> {
    t => Verdict(policy, t)
  }

  lemma MetadataSchemaIs(name: string)
    ensures IsMetadataSchema(name) <==> name in METADATA_SCHEMAS
  {
  }

  lemma DeniedIs(policy: Policy, full: string, short: string)
    ensures Denied(policy, full, short) <==> DeniedBy(policy, full, short)
  {
    hide Lower, Trim;
    if DeniedBy(policy, full, short) {
      var entry :| entry in policy.deniedFunctions && Lower(Trim(entry)) != ""
                   && if '.' in Lower(Trim(entry)) then Lower(Trim(entry)) == full else Lower(Trim(entry)) == short;
      var i :| 0 <= i < |policy.deniedFunctions| && policy.deniedFunctions[i] == entry;
      assert NormalizeIdent(policy.deniedFunctions[i]) == Lower(Trim(entry));
    }
  }

  /** A term is refused exactly when it calls a built-in, names a denied function or touches
      metadata without leave; the violation is for metadata first and for the policy's list last. */
  lemma VerdictIs(policy: Policy, t: Term)
    ensures var v := Verdict(policy, t);
            var metadata := !policy.allowMetadata && TouchesMetadata(t);
            && (v == None <==> Innocent(policy, t))
            && (v.Some? ==>
                  && (v.value.MetadataAccess? <==> metadata && IsCatalogRelation(t))
                  && (v.value.FunctionSchema? <==> metadata && !IsCatalogRelation(t))
                  && (v.value.BuiltinDenied? <==> !metadata && CallsBuiltin(t))
                  && (v.value.PolicyDenied? <==> !metadata && !CallsBuiltin(t) && NamesDenied(policy, t)))
  {
    hide IsBuiltin, IsMetadataSchema, Denied, DeniedBy, NameParts, JoinDots, Lower, Trim;
    forall full, short ensures Denied(policy, full, short) <==> DeniedBy(policy, full, short) {
      DeniedIs(policy, full, short);
    }
    forall name: string ensures IsMetadataSchema(name) <==> name in METADATA_SCHEMAS {
      MetadataSchemaIs(name);
    }
  }

  // ---------- the visitor ----------

  /** Each visit returns whether to stop; it starts with no violation and leaves the first one. */
  class SqlPolicyVisitor {
    const policy: Policy
    var violation: Option<Violation>

    constructor (policy: Policy)
      ensures this.policy == policy && violation == None
    {
      this.policy := policy;
      violation := None;
    }

    ghost predicate Leaves(nodes: seq<Node>, stop: bool)
      reads this
    {
      violation == FirstViolation(policy, nodes) && (stop <==> violation.Some?)
    }

    method CheckFunctionCandidates(full: string, short: string, isCall: bool) returns (stop: bool)
      requires violation == None
      modifies this
      ensures violation == CheckCandidates(policy, full, short, isCall) && (stop <==> violation.Some?)
    {
      if isCall && (IsBuiltin(short) || IsBuiltin(full)) {
        violation := Some(BuiltinDenied(full));
        return true;
      }
      if Denied(policy, full, short) {
        violation := Some(PolicyDenied(full));
        return true;
      }
      stop := false;
    }

    method CheckFunctionCall(name: ObjectName) returns (stop: bool)
      requires violation == None
      modifies this
      ensures violation == CheckFunctionName(policy, name) && (stop <==> violation.Some?)
    {
      var parts := NameParts(name);
      if parts == [] {
        return false;
      }
      if !policy.allowMetadata && |parts| > 1 && IsMetadataSchema(parts[0]) {
        violation := Some(FunctionSchema(parts[0]));
        return true;
      }
      stop := CheckFunctionCandidates(JoinDots(parts), parts[|parts| - 1], true);
    }

    method PreVisitRelation(name: ObjectName) returns (stop: bool)
      requires violation == None
      modifies this
      ensures violation == Check(policy, RelationNode(name)) && (stop <==> violation.Some?)
    {
      if !policy.allowMetadata && IsMetadataRelation(name) {
        violation := Some(MetadataAccess);
        return true;
      }
      stop := CheckFunctionCall(name);
    }

    method PreVisitExpr(expr: Expr) returns (stop: bool)
      requires violation == None
      modifies this
      ensures violation == Check(policy, ExprNode(expr)) && (stop <==> violation.Some?)
    {
      match expr {
        case Function(name, _) =>
          stop := CheckFunctionCall(name);
        case Identifier(ident) =>
          var candidate := NormalizeIdent(ident);
          stop := CheckFunctionCandidates(candidate, candidate, false);
        case CompoundIdentifier(parts) =>
          if parts == [] {
            return false;
          }
          var candidate := NormalizeIdent(parts[|parts| - 1]);
          stop := CheckFunctionCandidates(candidate, candidate, false);
        case _ =>
          stop := false;
      }
    }

    method VisitStatement(s: Statement) returns (stop: bool)
      requires violation == None
      modifies this
      ensures Leaves(StatementNodes(s), stop)
      decreases s, 1
    {
      match s {
        case QueryStatement(query) => stop := VisitQuery(query);
        case Explain(_, statement) => stop := VisitStatement(statement);
        case OtherStatement(exprs) => stop := VisitExprs(exprs);
      }
    }

    method VisitQuery(q: Query) returns (stop: bool)
      requires violation == None
      modifies this
      ensures Leaves(QueryNodes(q), stop)
      decreases q, 1
    {
      FirstViolationConcat(policy, QueriesNodes(q.ctes), BodyNodes(q.body));
      FirstViolationConcat(policy, QueriesNodes(q.ctes) + BodyNodes(q.body), ExprsNodes(q.orderBy));
      FirstViolationConcat(policy, QueriesNodes(q.ctes) + BodyNodes(q.body) + ExprsNodes(q.orderBy),
                           ExprsNodes(q.limit));
      stop := VisitQueries(q.ctes);
      if stop { return; }
      stop := VisitBody(q.body);
      if stop { return; }
      stop := VisitExprs(q.orderBy);
      if stop { return; }
      stop := VisitExprs(q.limit);
    }

    method VisitQueries(qs: seq<Query>) returns (stop: bool)
      requires violation == None
      modifies this
      ensures Leaves(QueriesNodes(qs), stop)
      decreases qs, 0
    {
      if qs == [] {
        return false;
      }
      FirstViolationConcat(policy, QueryNodes(qs[0]), QueriesNodes(qs[1..]));
      stop := VisitQuery(qs[0]);
      if stop { return; }
      stop := VisitQueries(qs[1..]);
    }

    method VisitBody(b: SetExpr) returns (stop: bool)
      requires violation == None
      modifies this
      ensures Leaves(BodyNodes(b), stop)
      decreases b, 1
    {
      match b {
        case SelectBody(select) => stop := VisitSelect(select);
        case Nested(query) => stop := VisitQuery(query);
        case SetOperation(left, right) =>
          FirstViolationConcat(policy, BodyNodes(left), BodyNodes(right));
          stop := VisitBody(left);
          if stop { return; }
          stop := VisitBody(right);
        case OtherBody(exprs) => stop := VisitExprs(exprs);
      }
    }

    method VisitSelect(s: Select) returns (stop: bool)
      requires violation == None
      modifies this
      ensures Leaves(SelectNodes(s), stop)
      decreases s, 1
    {
      var head, items, froms := [SelectNode(s)], ItemsNodes(s.projection), FromsNodes(s.from);
      FirstViolationConcat(policy, head, ExprsNodes(s.distinct));
      FirstViolationConcat(policy, head + ExprsNodes(s.distinct), items);
      FirstViolationConcat(policy, head + ExprsNodes(s.distinct) + items, froms);
      FirstViolationConcat(policy, head + ExprsNodes(s.distinct) + items + froms, ExprsNodes(s.clauses));
      assert FirstViolation(policy, head) == FirstViolation(policy, head[1..]);
      stop := VisitExprs(s.distinct);
      if stop { return; }
      stop := VisitItems(s.projection);
      if stop { return; }
      stop := VisitFroms(s.from);
      if stop { return; }
      stop := VisitExprs(s.clauses);
    }

    method VisitItems(items: seq<SelectItem>) returns (stop: bool)
      requires violation == None
      modifies this
      ensures Leaves(ItemsNodes(items), stop)
      decreases items, 0
    {
      if items == [] {
        return false;
      }
      FirstViolationConcat(policy, ItemNodes(items[0]), ItemsNodes(items[1..]));
      stop := VisitItem(items[0]);
      if stop { return; }
      stop := VisitItems(items[1..]);
    }

    method VisitItem(item: SelectItem) returns (stop: bool)
      requires violation == None
      modifies this
      ensures Leaves(ItemNodes(item), stop)
      decreases item, 1
    {
      stop := false;
      if item.Item? {
        stop := VisitExpr(item.expr);
      }
    }

    method VisitFrom(f: FromItem) returns (stop: bool)
      requires violation == None
      modifies this
      ensures Leaves(FromNodes(f), stop)
      decreases f, 1
    {
      match f {
        case Relation(name, args) =>
          FirstViolationConcat(policy, [RelationNode(name)], ExprsNodes(args));
          assert [RelationNode(name)][1..] == [];
          stop := PreVisitRelation(name);
          if stop { return; }
          stop := VisitExprs(args);
        case Derived(query) => stop := VisitQuery(query);
        case TableFunction(expr) => stop := VisitExpr(expr);
        case Joined(items) => stop := VisitFroms(items);
        case Condition(expr) => stop := VisitExpr(expr);
      }
    }

    method VisitFroms(items: seq<FromItem>) returns (stop: bool)
      requires violation == None
      modifies this
      ensures Leaves(FromsNodes(items), stop)
      decreases items, 0
    {
      if items == [] {
        return false;
      }
      FirstViolationConcat(policy, FromNodes(items[0]), FromsNodes(items[1..]));
      stop := VisitFrom(items[0]);
      if stop { return; }
      stop := VisitFroms(items[1..]);
    }

    method VisitExpr(e: Expr) returns (stop: bool)
      requires violation == None
      modifies this
      ensures Leaves(ExprNodes(e), stop)
      decreases e, 1
    {
      FirstViolationConcat(policy, [ExprNode(e)], ExprNodes(e)[1..]);
      assert [ExprNode(e)][1..] == [] && ExprNodes(e) == [ExprNode(e)] + ExprNodes(e)[1..];
      stop := PreVisitExpr(e);
      if stop { return; }
      match e {
        case Function(_, args) => stop := VisitExprs(args);
        case Subquery(query) => stop := VisitQuery(query);
        case OtherExpr(children) => stop := VisitExprs(children);
        case _ =>
      }
    }

    method VisitExprs(es: seq<Expr>) returns (stop: bool)
      requires violation == None
      modifies this
      ensures Leaves(ExprsNodes(es), stop)
      decreases es, 0
    {
      if es == [] {
        return false;
      }
      FirstViolationConcat(policy, ExprNodes(es[0]), ExprsNodes(es[1..]));
      stop := VisitExpr(es[0]);
      if stop { return; }
      stop := VisitExprs(es[1..]);
    }
  }

  // ---------- the spine: CTEs, set operations and nested queries ----------

  function ValidateQuery(q: Query): Option<Refusal>
    decreases q, 1
  {
    if q.locks > 0 then Some(LockingClause)
    else
      var refused := ValidateQueries(q.ctes);
      if refused.Some? then refused else ValidateBody(q.body)
  }

  function ValidateQueries(qs: seq<Query>): Option<Refusal>
    decreases qs, 0
  {
    if qs == [] then None
    else
      var refused := ValidateQuery(qs[0]);
      if refused.Some? then refused else ValidateQueries(qs[1..])
  }

  function ValidateBody(b: SetExpr): Option<Refusal>
    decreases b, 1
  {
    match b
    case SelectBody(select) => if select.into then Some(SelectInto) else None
    case Nested(query) => ValidateQuery(query)
    case SetOperation(left, right) =>
      var refused := ValidateBody(left);
      if refused.Some? then refused else ValidateBody(right)
    case OtherBody(_) => Some(BodyKind)
  }

  /** What the shape check refuses in one term: a lock, an INTO, or a body that is no SELECT. */
  ghost function Misshapen(t: Term): Option<Refusal> {
    match t
    case QueryTerm(q) => if q.locks > 0 then Some(LockingClause) else None
    case BodyTerm(SelectBody(select)) => if select.into then Some(SelectInto) else None
    case BodyTerm(OtherBody(_)) => Some(BodyKind)
    case _ => None
  }

  ghost function Refusals(qs: seq<Query>): seq<Option<Refusal>> {
    seq(|qs|, i requires 0 <= i < |qs| => ValidateQuery(qs[i]))
  }

  lemma {:induction false} FirstRefusal(qs: seq<Query>, last: Option<Refusal>)
    ensures FirstSome(Refusals(qs) + [last]) == if ValidateQueries(qs).Some? then ValidateQueries(qs) else last
  {
    var rs := Refusals(qs) + [last];
    if qs == [] {
      assert rs == [last] && FirstSome([last]) == last;
    } else {
      FirstRefusal(qs[1..], last);
      assert rs[1..] == Refusals(qs[1..]) + [last];
    }
  }

  /** The shape check answers for the first misshapen term of the spine, in document order, and
      accepts when there is none. */
  lemma {:induction false} ValidateQueryIsFirst(q: Query)
    ensures IsFirst(SpineParts, Misshapen, QueryTerm(q), ValidateQuery(q))
    decreases q
  {
    var rs := Refusals(q.ctes);
    forall i | 0 <= i < |q.ctes| ensures IsFirst(SpineParts, Misshapen, QueryTerm(q.ctes[i]), rs[i]) {
      ValidateQueryIsFirst(q.ctes[i]);
    }
    ValidateBodyIsFirst(q.body);
    FirstRefusal(q.ctes, ValidateBody(q.body));
    var all := rs + [ValidateBody(q.body)];
    hide IsFirst;
    FirstOfParts(SpineParts, Misshapen, QueryTerm(q), all);
  }

  lemma {:induction false} ValidateBodyIsFirst(b: SetExpr)
    ensures IsFirst(SpineParts, Misshapen, BodyTerm(b), ValidateBody(b))
    decreases b
  {
    hide IsFirst;
    match b {
      case Nested(query) =>
        ValidateQueryIsFirst(query);
        var r := ValidateQuery(query);
        assert FirstSome([r]) == r;
        FirstOfParts(SpineParts, Misshapen, BodyTerm(b), [r]);
      case SetOperation(left, right) =>
        ValidateBodyIsFirst(left);
        ValidateBodyIsFirst(right);
        var rs := [ValidateBody(left), ValidateBody(right)];
        assert rs[1..] == [rs[1]] && FirstSome([rs[1]]) == rs[1];
        FirstOfParts(SpineParts, Misshapen, BodyTerm(b), rs);
      case _ =>
        FirstOfParts(SpineParts, Misshapen, BodyTerm(b), []);
    }
  }

  ghost predicate WellShaped(t: Term) {
    && (t.QueryTerm? ==> t.query.locks == 0)
    && (t.BodyTerm? ==> !t.body.OtherBody? && (t.body.SelectBody? ==> !t.body.select.into))
  }

  /** The shape check accepts exactly the queries whose spine takes no lock and ends everywhere in
      a SELECT without INTO. */
  lemma ValidateQueryIff(q: Query)
    ensures ValidateQuery(q) == None <==> forall t | OnSpine(QueryTerm(q), t) :: WellShaped(t)
  {
    ValidateQueryIsFirst(q);
    if ValidateQuery(q).Some? {
      var p, t :| FirstAt(SpineParts, Misshapen, QueryTerm(q), p, t);
      assert OnSpine(QueryTerm(q), t);
    }
  }

  /** The query with everything off its spine taken out: what each SELECT lists, reads from and
      filters on, and how results are ordered and limited. */
  function BareQuery(q: Query): Query
    decreases q, 1
  {
    Query(BareQueries(q.ctes), BareBody(q.body), [], [], q.locks)
  }

  function BareQueries(qs: seq<Query>): seq<Query>
    decreases qs, 0
  {
    if qs == [] then [] else [BareQuery(qs[0])] + BareQueries(qs[1..])
  }

  function BareBody(b: SetExpr): SetExpr
    decreases b, 1
  {
    match b
    case SelectBody(select) => SelectBody(Select([], [], select.into, [], []))
    case Nested(query) => Nested(BareQuery(query))
    case SetOperation(left, right) => SetOperation(BareBody(left), BareBody(right))
    case OtherBody(_) => OtherBody([])
  }

  /** The check looks at nothing off the spine: derived tables, subqueries and every expression can
      be taken out, or put in, without changing its answer. */
  lemma {:induction false} OnlyTheSpineIsChecked(q: Query)
    ensures ValidateQuery(BareQuery(q)) == ValidateQuery(q)
    decreases q, 1
  {
    OnlyTheSpinesAreChecked(q.ctes);
    OnlyTheSpineOfBody(q.body);
  }

  lemma {:induction false} OnlyTheSpinesAreChecked(qs: seq<Query>)
    ensures ValidateQueries(BareQueries(qs)) == ValidateQueries(qs)
    decreases qs, 0
  {
    if qs != [] {
      OnlyTheSpineIsChecked(qs[0]);
      OnlyTheSpinesAreChecked(qs[1..]);
      assert BareQueries(qs)[1..] == BareQueries(qs[1..]);
    }
  }

  lemma {:induction false} OnlyTheSpineOfBody(b: SetExpr)
    ensures ValidateBody(BareBody(b)) == ValidateBody(b)
    decreases b, 1
  {
    match b {
      case Nested(query) => OnlyTheSpineIsChecked(query);
      case SetOperation(left, right) =>
        OnlyTheSpineOfBody(left);
        OnlyTheSpineOfBody(right);
      case _ =>
    }
  }

  /** So an accepted query stays accepted whatever is derived in the FROM of one of its SELECTs. */
  lemma DerivedTablesPassTheSpine(outer: Query, other: Query)
    requires BareQuery(outer) == BareQuery(other)
    ensures ValidateQuery(outer) == ValidateQuery(other)
  {
    OnlyTheSpineIsChecked(outer);
    OnlyTheSpineIsChecked(other);
  }

  // ---------- the whole check ----------

  datatype Analysis = Analysis(isExplain: bool, usesSelectWildcard: bool)

  predicate HasWildcard(items: seq<SelectItem>) {
    exists i | 0 <= i < |items| :: !items[i].Item?
  }

  predicate UsesSelectWildcard(nodes: seq<Node>) {
    exists i | 0 <= i < |nodes| :: nodes[i].SelectNode? && HasWildcard(nodes[i].select.projection)
  }

  function ValidateStatement(policy: Policy, s: Statement): Option<Refusal> {
    match s
    case QueryStatement(query) => ValidateQuery(query)
    case Explain(analyze, statement) =>
      if !policy.allowExplain then Some(ExplainNotAllowed)
      else if analyze && !policy.allowExplainAnalyze then Some(AnalyzeNotAllowed)
      else if statement.QueryStatement? then ValidateQuery(statement.query)
      else Some(ExplainTarget)
    case OtherStatement(_) => Some(StatementKind)
  }

  /** `enforce_sql_policy` on what the parser returned. */
  method EnforceSqlPolicy(parsed: Option<seq<Statement>>, policy: Policy) returns (r: Result<Analysis, Refusal>)
    ensures r == Enforce(parsed, policy)
  {
    if parsed == None {
      return Err(SyntaxError);
    }
    if |parsed.value| != 1 {
      return Err(StatementCount);
    }
    var statement := parsed.value[0];
    var refused := ValidateStatement(policy, statement);
    if refused.Some? {
      return Err(refused.value);
    }
    var visitor := new SqlPolicyVisitor(policy);
    var _ := visitor.VisitStatement(statement);
    if visitor.violation.Some? {
      return Err(Forbidden(visitor.violation.value));
    }
    r := Ok(Analysis(statement.Explain?, UsesSelectWildcard(StatementNodes(statement))));
  }

  ghost function Enforce(parsed: Option<seq<Statement>>, policy: Policy): Result<Analysis, Refusal> {
    if parsed == None then Err(SyntaxError)
    else if |parsed.value| != 1 then Err(StatementCount)
    else
      var s := parsed.value[0];
      if ValidateStatement(policy, s).Some? then Err(ValidateStatement(policy, s).value)
      else if FirstViolation(policy, StatementNodes(s)).Some? then
        Err(Forbidden(FirstViolation(policy, StatementNodes(s)).value))
      else Ok(Analysis(s.Explain?, UsesSelectWildcard(StatementNodes(s))))
  }

  // ---------- what is accepted ----------

  ghost function Firsts(policy: Policy, ts: seq<Term>): seq<Option<Violation>> {
    seq(|ts|, i requires 0 <= i < |ts| => FirstViolation(policy, NodesOf(ts[i])))
  }

  lemma {:induction false} FirstViolationOfAll(policy: Policy, ts: seq<Term>)
    ensures FirstViolation(policy, AllNodes(ts)) == FirstSome(Firsts(policy, ts))
  {
    hide NodesOf, Check;
    if ts != [] {
      FirstViolationOfAll(policy, ts[1..]);
      FirstViolationConcat(policy, NodesOf(ts[0]), AllNodes(ts[1..]));
      assert Firsts(policy, ts)[1..] == Firsts(policy, ts[1..]);
    }
  }

  lemma FirstViolationOfOwn(policy: Policy, t: Term)
    ensures FirstViolation(policy, Own(t)) == Verdict(policy, t)
  {
    hide Check;
    if NodeAt(t).Some? {
      assert Own(t)[1..] == [];
    }
  }

  /** The visitor's violation is that of the first refused term of the statement, in document order. */
  lemma VisitorIsFirst(policy: Policy, s: Statement)
    ensures IsFirst(Parts, VerdictOf(policy), StatementTerm(s), FirstViolation(policy, StatementNodes(s)))
  {
    hide FirstViolation, Verdict, IsFirst, Parts, StatementNodes;
    var answer := VerdictOf(policy);
    var holds := (t: Term) => IsFirst(Parts, answer, t, FirstViolation(policy, NodesOf(t)));
    forall t | All(holds, Parts(t)) ensures holds(t) {
      var rs := Firsts(policy, Parts(t));
      Unfolds(t);
      FirstViolationConcat(policy, Own(t), AllNodes(Parts(t)));
      FirstViolationOfOwn(policy, t);
      FirstViolationOfAll(policy, Parts(t));
      assert forall i | 0 <= i < |rs| :: holds(Parts(t)[i]);
      FirstOfParts(Parts, answer, t, rs);
    }
    HoldsOfStatement(holds, s);
    assert holds(StatementTerm(s));
  }

  /** The visitor passes exactly the statements in which every term is innocent. */
  lemma VisitorIff(policy: Policy, s: Statement)
    ensures FirstViolation(policy, StatementNodes(s)) == None
            <==> forall t | Within(StatementTerm(s), t) :: Innocent(policy, t)
  {
    hide Innocent, Verdict, FirstViolation, StatementNodes, Parts;
    VisitorIsFirst(policy, s);
    forall t ensures Verdict(policy, t) == None <==> Innocent(policy, t) {
      VerdictIs(policy, t);
    }
    if FirstViolation(policy, StatementNodes(s)).Some? {
      var p, t :| FirstAt(Parts, VerdictOf(policy), StatementTerm(s), p, t);
      assert Within(StatementTerm(s), t);
    }
  }

  ghost predicate WildcardSelect(t: Term) {
    t.SelectTerm? && exists item <- t.select.projection :: item.Wildcard? || item.QualifiedWildcard?
  }

  lemma WildcardIff(s: Statement)
    ensures UsesSelectWildcard(StatementNodes(s)) <==> exists t :: Within(StatementTerm(s), t) && WildcardSelect(t)
  {
    hide StatementNodes, Within;
    var nodes := StatementNodes(s);
    if UsesSelectWildcard(nodes) {
      var i :| 0 <= i < |nodes| && nodes[i].SelectNode? && HasWildcard(nodes[i].select.projection);
      VisitedIffWithin(s, nodes[i]);
      var t :| Within(StatementTerm(s), t) && NodeAt(t) == Some(nodes[i]);
      WildcardItem(t.select.projection);
      assert WildcardSelect(t);
    }
    if t :| Within(StatementTerm(s), t) && WildcardSelect(t) {
      VisitedIffWithin(s, SelectNode(t.select));
      WildcardItem(t.select.projection);
      var i :| 0 <= i < |nodes| && nodes[i] == SelectNode(t.select);
    }
  }

  lemma WildcardItem(items: seq<SelectItem>)
    ensures HasWildcard(items) <==> exists item <- items :: item.Wildcard? || item.QualifiedWildcard?
  {
  }

  /** A query, or an EXPLAIN of one that the policy permits. */
  ghost predicate Permitted(policy: Policy, s: Statement) {
    || s.QueryStatement?
    || (s.Explain? && s.statement.QueryStatement? && policy.allowExplain && (s.analyze ==> policy.allowExplainAnalyze))
  }

  ghost function QueryOf(s: Statement): Query
    requires s.QueryStatement? || (s.Explain? && s.statement.QueryStatement?)
  {
    if s.QueryStatement? then s.query else s.statement.query
  }

  /** Accepted exactly when there is one statement, a query or a permitted EXPLAIN of one, with
      every term of its spine in shape and every term within it innocent; the answer says whether
      it is an EXPLAIN and whether a SELECT within it lists a wildcard. */
  lemma AcceptedIff(parsed: Option<seq<Statement>>, policy: Policy)
    ensures var r := Enforce(parsed, policy);
            && (r.Ok? <==>
                  && parsed.Some? && |parsed.value| == 1
                  && var s := parsed.value[0];
                  && Permitted(policy, s)
                  && (forall t | OnSpine(QueryTerm(QueryOf(s)), t) :: WellShaped(t))
                  && (forall t | Within(StatementTerm(s), t) :: Innocent(policy, t)))
            && (r.Ok? ==>
                  var s := parsed.value[0];
                  && r.value.isExplain == s.Explain?
                  && (r.value.usesSelectWildcard
                      <==> exists t :: Within(StatementTerm(s), t) && WildcardSelect(t)))
  {
    hide Innocent, WellShaped, FirstViolation, StatementNodes, Within, OnSpine, ValidateQuery, UsesSelectWildcard;
    if parsed.Some? && |parsed.value| == 1 {
      var s := parsed.value[0];
      VisitorIff(policy, s);
      WildcardIff(s);
      if Permitted(policy, s) {
        ValidateQueryIff(QueryOf(s));
      }
    }
  }

  /** What a refused statement is refused for: its kind, then the first misshapen term of its
      spine, then the first term within it that is not innocent. */
  lemma RefusalIs(s: Statement, policy: Policy)
    ensures var r := Enforce(Some([s]), policy);
            && (!Permitted(policy, s) ==>
                  r == Err(if s.OtherStatement? then StatementKind
                           else if !policy.allowExplain then ExplainNotAllowed
                           else if s.analyze && !policy.allowExplainAnalyze then AnalyzeNotAllowed
                           else ExplainTarget))
            && (Permitted(policy, s) && r.Err? && !r.error.Forbidden? ==>
                  IsFirst(SpineParts, Misshapen, QueryTerm(QueryOf(s)), Some(r.error)))
            && (Permitted(policy, s) && r.Err? && r.error.Forbidden? ==>
                  && (forall t | OnSpine(QueryTerm(QueryOf(s)), t) :: WellShaped(t))
                  && IsFirst(Parts, VerdictOf(policy), StatementTerm(s), Some(r.error.violation)))
  {
    hide WellShaped, FirstViolation, StatementNodes, Within, OnSpine, ValidateQuery, UsesSelectWildcard, Verdict;
    VisitorIsFirst(policy, s);
    if Permitted(policy, s) {
      ValidateQueryIff(QueryOf(s));
      ValidateQueryIsFirst(QueryOf(s));
    }
  }

  /** More allowed, or less denied. */
  ghost predicate AtLeastAsPermissive(loose: Policy, strict: Policy) {
    && (strict.allowMetadata ==> loose.allowMetadata)
    && (strict.allowExplain ==> loose.allowExplain)
    && (strict.allowExplainAnalyze ==> loose.allowExplainAnalyze)
    && (forall d <- loose.deniedFunctions :: d in strict.deniedFunctions)
  }

  lemma CheckMonotone(loose: Policy, strict: Policy, node: Node)
    requires AtLeastAsPermissive(loose, strict)
    ensures Check(strict, node) == None ==> Check(loose, node) == None
  {
    forall full: string, short: string ensures Denied(loose, full, short) ==> Denied(strict, full, short) {
      DeniedMonotone(loose, strict, full, short);
    }
  }

  lemma DeniedMonotone(loose: Policy, strict: Policy, full: string, short: string)
    requires AtLeastAsPermissive(loose, strict)
    ensures Denied(loose, full, short) ==> Denied(strict, full, short)
  {
    hide NormalizeIdent;
    if Denied(loose, full, short) {
      var i :| 0 <= i < |loose.deniedFunctions| &&
               var denied := NormalizeIdent(loose.deniedFunctions[i]);
               denied != "" && denied == if '.' in denied then full else short;
      assert loose.deniedFunctions[i] in loose.deniedFunctions;
      var j :| 0 <= j < |strict.deniedFunctions| && strict.deniedFunctions[j] == loose.deniedFunctions[i];
      assert Denied(strict, full, short) by {
        assert NormalizeIdent(strict.deniedFunctions[j]) == NormalizeIdent(loose.deniedFunctions[i]);
      }
    }
  }

  /** Allowing more, or denying fewer functions, never rejects an accepted query. */
  lemma AcceptanceMonotone(parsed: Option<seq<Statement>>, loose: Policy, strict: Policy)
    requires AtLeastAsPermissive(loose, strict) && Enforce(parsed, strict).Ok?
    ensures Enforce(parsed, loose) == Enforce(parsed, strict)
  {
    hide Check;
    var nodes := StatementNodes(parsed.value[0]);
    FirstViolationIsFirst(strict, nodes);
    FirstViolationIsFirst(loose, nodes);
    forall i | 0 <= i < |nodes| ensures Check(loose, nodes[i]) == None {
      CheckMonotone(loose, strict, nodes[i]);
    }
  }
}
