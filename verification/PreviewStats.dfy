/**
 Sampling a document into per-path statistics (backend/crates/json-output/src/preview.rs).

 The source keys a hash map by printed path. Class StatsTable does the same and carries, as
 ghost state, the statistics keyed by location; the two stay in step because printing is
 injective. The lemmas then say what each statistic is: a summary of the nodes the path selects.
 */
module PreviewStats {
  import opened Wrappers
  import opened Json
  import opened PreviewPath

  const MAX_PREVIEW_DEPTH: nat := 5
  const MAX_PREVIEW_ARRAY_SAMPLE: nat := 10
  const MAX_PREVIEW_NESTED_ARRAY_DEPTH: nat := 1

  datatype Stat = Stat(
    valueType: string,
    present: nat,
    nulls: nat,
    arrayMin: Option<nat>,
    arrayMax: Option<nat>,
    stopped: bool)

  type Located = map<seq<Step>, Stat>

  function TypeName(v: Value): string {
    match v
    case Null => "null"
    case Bool(_) => "boolean"
    case Number(_) => "number"
    case Str(_) => "string"
    case Array(_) => "array"
    case Object(_) => "object"
  }

  function Min(a: nat, b: nat): nat { if a <= b then a else b }
  function Max(a: nat, b: nat): nat { if a <= b then b else a }

  /** How many elements of an array are looked at: all of them, when None. */
  type Width = Option<nat>

  const SAMPLE_WIDTH: Width := Some(MAX_PREVIEW_ARRAY_SAMPLE)

  function Cut(items: seq<Value>, width: Width): seq<Value> {
    if width == None || |items| <= width.value then items else items[..width.value]
  }

  function Sample(items: seq<Value>): seq<Value> {
    Cut(items, SAMPLE_WIDTH)
  }

  // ---------- the sampler, keyed by location ----------

  function Get<K, V>(m: map<K, V>, k: K): Option<V> {
    if k in m then Some(m[k]) else None
  }

  /** One more node seen at a path. */
  function AddNode(stat: Option<Stat>, v: Value): Stat {
    var isNull := if v.Null? then 1 else 0;
    match stat
    case None =>
      var len := if v.Array? then Some(|v.items|) else None;
      Stat(TypeName(v), 1, isNull, len, len, false)
    case Some(s) =>
      if v.Array? then
        var n := |v.items|;
        s.(present := s.present + 1,
           arrayMin := Some(if s.arrayMin == None then n else Min(s.arrayMin.value, n)),
           arrayMax := Some(if s.arrayMax == None then n else Max(s.arrayMax.value, n)))
      else s.(present := s.present + 1, nulls := s.nulls + isNull)
  }

  /** Expansion stops at the depth limit, and at an array inside an array. */
  predicate Stops(v: Value, depth: nat, arrayDepth: nat) {
    depth >= MAX_PREVIEW_DEPTH || (v.Array? && arrayDepth >= MAX_PREVIEW_NESTED_ARRAY_DEPTH)
  }

  function Touch(stat: Option<Stat>, v: Value, stops: bool): Stat {
    var added := AddNode(stat, v);
    if stops then added.(stopped := true) else added
  }

  function Collect(m: Located, at: seq<Step>, v: Value, depth: nat, arrayDepth: nat): Located
    decreases v, 1
  {
    var m1 := m[at := Touch(Get(m, at), v, Stops(v, depth, arrayDepth))];
    if Stops(v, depth, arrayDepth) then m1
    else
      match v
      case Object(members) => CollectMembers(m1, at, members, depth + 1, arrayDepth)
      case Array(items) => CollectItems(m1, at, Sample(items), depth + 1, arrayDepth + 1)
      case _ => m1
  }

  function CollectMembers(m: Located, at: seq<Step>, members: seq<Member>, depth: nat, arrayDepth: nat): Located
    decreases members, 0
  {
    if members == [] then m
    else
      CollectMembers(Collect(m, at + [Name(members[0].key)], members[0].value, depth, arrayDepth),
                     at, members[1..], depth, arrayDepth)
  }

  function CollectItems(m: Located, at: seq<Step>, items: seq<Value>, depth: nat, arrayDepth: nat): Located
    decreases items, 0
  {
    if items == [] then m
    else CollectItems(Collect(m, at + [Wild], items[0], depth, arrayDepth), at, items[1..], depth, arrayDepth)
  }

  // ---------- the sampler, keyed by printed path ----------

  class StatsTable {
    var stats: map<string, Stat>
    ghost var located: Located

    /** Keying by printed path is keying by location. */
    ghost predicate Coupled()
      reads this
    {
      KeyedByPrint(stats, located)
    }

    static ghost predicate KeyedByPrint(s: map<string, Stat>, l: Located) {
      && (forall q <- l :: Print(q) in s && s[Print(q)] == l[q])
      && (forall p <- s :: exists q :: q in l && Print(q) == p)
    }

    constructor ()
      ensures Coupled() && stats == map[] && located == map[]
    {
      stats, located := map[], map[];
    }

    method AddPreview(path: string, ghost at: seq<Step>, value: Value)
      requires Coupled() && path == Print(at)
      modifies this
      ensures Coupled() && located == old(located)[at := AddNode(Get(old(located), at), value)]
    {
      SameKey(at);
      ghost var node := AddNode(Get(located, at), value);
      located := located[at := node];
      hide KeyedByPrint, Print;
      if path in stats {
        var stat := stats[path].(present := stats[path].present + 1);
        if value.Null? {
          stat := stat.(nulls := stat.nulls + 1);
        }
        if value.Array? {
          var len := |value.items|;
          stat := stat.(arrayMin := Some(if stat.arrayMin == None then len else Min(stat.arrayMin.value, len)));
          stat := stat.(arrayMax := Some(if stat.arrayMax == None then len else Max(stat.arrayMax.value, len)));
        }
        assert stat == node;
        stats := stats[path := stat];
      } else {
        var len := if value.Array? then Some(|value.items|) else None;
        stats := stats[path := Stat(TypeName(value), 1, if value.Null? then 1 else 0, len, len, false)];
      }
      hide AddNode;
      StillCoupled(old(stats), old(located), at, node);
    }

    method MarkStopped(path: string, ghost at: seq<Step>)
      requires Coupled() && path == Print(at)
      modifies this
      ensures Coupled()
      ensures located == if at in old(located) then old(located)[at := old(located)[at].(stopped := true)]
                         else old(located)
    {
      SameKey(at);
      hide KeyedByPrint, Print;
      if path in stats {
        stats := stats[path := stats[path].(stopped := true)];
        located := located[at := located[at].(stopped := true)];
        StillCoupled(old(stats), old(located), at, stats[path]);
      }
    }

    lemma SameKey(at: seq<Step>)
      requires Coupled()
      ensures at in located <==> Print(at) in stats
      ensures at in located ==> stats[Print(at)] == located[at]
    {
      if Print(at) in stats {
        var q :| q in located && Print(q) == Print(at);
        PrintInjective(q, at);
      }
    }

    lemma StillCoupled(s: map<string, Stat>, l: Located, at: seq<Step>, stat: Stat)
      requires KeyedByPrint(s, l)
      requires stats == s[Print(at) := stat] && located == l[at := stat]
      ensures Coupled()
    {
      forall q <- located ensures Print(q) in stats && stats[Print(q)] == located[q] {
        if q != at && Print(q) == Print(at) {
          PrintInjective(q, at);
        }
      }
      forall p <- stats ensures exists q :: q in located && Print(q) == p {
        if p == Print(at) {
          assert at in located;
        } else {
          var q :| q in l && Print(q) == p;
          assert q in located;
        }
      }
    }

    method CollectPreview(path: string, ghost at: seq<Step>, value: Value, depth: nat, arrayDepth: nat)
      requires Coupled() && path == Print(at)
      modifies this
      ensures Coupled() && located == Collect(old(located), at, value, depth, arrayDepth)
      decreases value, 1
    {
      hide Coupled, Print, AddNode, CollectMembers, CollectItems;
      AddPreview(path, at, value);
      if depth >= MAX_PREVIEW_DEPTH {
        MarkStopped(path, at);
        return;
      }
      match value {
        case Object(members) =>
          CollectEntries(path, at, members, depth, arrayDepth);
        case Array(items) =>
          if arrayDepth >= MAX_PREVIEW_NESTED_ARRAY_DEPTH {
            MarkStopped(path, at);
            return;
          }
          CollectElements(path, at, Sample(items), depth, arrayDepth);
        case _ =>
      }
    }

    /** The loop over an object's entries. */
    method CollectEntries(path: string, ghost at: seq<Step>, members: seq<Member>, depth: nat, arrayDepth: nat)
      requires Coupled() && path == Print(at)
      modifies this
      ensures Coupled() && located == CollectMembers(old(located), at, members, depth + 1, arrayDepth)
      decreases members, 0
    {
      hide Coupled, Print, NameSegment, Collect;
      for i := 0 to |members|
        invariant Coupled()
        invariant CollectMembers(old(located), at, members, depth + 1, arrayDepth)
                  == CollectMembers(located, at, members[i..], depth + 1, arrayDepth)
      {
        PrintSnoc(at, Name(members[i].key));
        CollectPreview(path + NameSegment(members[i].key), at + [Name(members[i].key)],
                       members[i].value, depth + 1, arrayDepth);
        assert members[i..][1..] == members[i + 1..];
      }
    }

    /** The loop over an array's sampled elements. */
    method CollectElements(path: string, ghost at: seq<Step>, items: seq<Value>, depth: nat, arrayDepth: nat)
      requires Coupled() && path == Print(at)
      modifies this
      ensures Coupled() && located == CollectItems(old(located), at, items, depth + 1, arrayDepth + 1)
      decreases items, 0
    {
      hide Coupled, Print, Collect;
      for i := 0 to |items|
        invariant Coupled()
        invariant CollectItems(old(located), at, items, depth + 1, arrayDepth + 1)
                  == CollectItems(located, at, items[i..], depth + 1, arrayDepth + 1)
      {
        PrintSnoc(at, Wild);
        CollectPreview(path + "[*]", at + [Wild], items[i], depth + 1, arrayDepth + 1);
        assert items[i..][1..] == items[i + 1..];
      }
    }

    lemma PrintSnoc(at: seq<Step>, step: Step)
      ensures Print(at + [step]) == Print(at) + Segment(step)
    {
      assert (at + [step])[..|at|] == at;
    }
  }

  // ---------- the nodes a path selects ----------

  /** The nodes reached by names into objects and by `[*]` into arrays, of which the first `width`
      elements are looked at. */
  function Nodes(v: Value, steps: seq<Step>, width: Width): seq<Value>
    decreases v, 1
  {
    if steps == [] then [v]
    else
      match (steps[0], v)
      case (Name(key), Object(members)) => NodesOfMember(members, key, steps[1..], width)
      case (Wild, Array(items)) => NodesOfItems(Cut(items, width), steps[1..], width)
      case _ => []
  }

  function NodesOfMember(members: seq<Member>, key: string, steps: seq<Step>, width: Width): seq<Value>
    decreases members, 0
  {
    if members == [] then []
    else
      (if members[0].key == key then Nodes(members[0].value, steps, width) else [])
      + NodesOfMember(members[1..], key, steps, width)
  }

  function NodesOfItems(items: seq<Value>, steps: seq<Step>, width: Width): seq<Value>
    decreases items, 0
  {
    if items == [] then [] else Nodes(items[0], steps, width) + NodesOfItems(items[1..], steps, width)
  }

  function Sampled(v: Value, steps: seq<Step>): seq<Value> {
    Nodes(v, steps, SAMPLE_WIDTH)
  }

  // ---------- every statistic summarizes the nodes its path selects ----------

  function Wilds(steps: seq<Step>): nat {
    if steps == [] then 0 else (if steps[|steps| - 1].Wild? then 1 else 0) + Wilds(steps[..|steps| - 1])
  }

  /** Within the depth limit, through at most one array. */
  ghost predicate Admissible(q: seq<Step>) {
    |q| <= MAX_PREVIEW_DEPTH && Wilds(q) <= MAX_PREVIEW_NESTED_ARRAY_DEPTH
  }

  ghost function AddAll(stat: Option<Stat>, nodes: seq<Value>, q: seq<Step>): Option<Stat> {
    if nodes == [] then stat
    else
      var last := nodes[|nodes| - 1];
      Some(Touch(AddAll(stat, nodes[..|nodes| - 1], q), last, Stops(last, |q|, Wilds(q))))
  }

  lemma {:induction false} AddAllConcat(stat: Option<Stat>, xs: seq<Value>, ys: seq<Value>, q: seq<Step>)
    ensures AddAll(AddAll(stat, xs, q), ys, q) == AddAll(stat, xs + ys, q)
  {
    if ys == [] {
      assert xs + ys == xs;
    } else {
      var init := ys[..|ys| - 1];
      AddAllConcat(stat, xs, init, q);
      assert (xs + ys)[..|xs + ys| - 1] == xs + init;
    }
  }

  lemma {:induction false} WildsExtend(path: seq<Step>, rest: seq<Step>)
    ensures Wilds(path + rest) >= Wilds(path)
    ensures rest != [] && rest[0].Wild? ==> Wilds(path + rest) >= Wilds(path) + 1
  {
    if rest == [] {
      assert path + rest == path;
    } else {
      WildsExtend(path, rest[..|rest| - 1]);
      assert (path + rest)[..|path + rest| - 1] == path + rest[..|rest| - 1];
    }
  }

  lemma WildsSnoc(path: seq<Step>, step: Step)
    ensures Wilds(path + [step]) == Wilds(path) + if step.Wild? then 1 else 0
  {
    assert (path + [step])[..|path|] == path;
  }

  /** What collecting from the node at `at` does to the statistic at `q`. */
  lemma {:induction false} CollectAt(m: Located, at: seq<Step>, v: Value, rest: seq<Step>)
    requires Admissible(at)
    ensures var q := at + rest;
            Get(Collect(m, at, v, |at|, Wilds(at)), q)
            == if Admissible(q) then AddAll(Get(m, q), Sampled(v, rest), q) else Get(m, q)
    decreases v, 1
  {
    hide Touch;
    var q := at + rest;
    var stops := Stops(v, |at|, Wilds(at));
    var m1 := m[at := Touch(Get(m, at), v, stops)];
    WildsExtend(at, rest);
    if rest == [] {
      assert q == at;
      assert AddAll(Get(m, q), [v], q) == Some(Touch(AddAll(Get(m, q), [v][..0], q), v, stops));
    } else {
      assert Get(m1, q) == Get(m, q);
    }
    if !stops {
      match v {
        case Object(members) => CollectMembersAt(m1, at, members, rest);
        case Array(items) => CollectItemsAt(m1, at, Sample(items), rest);
        case _ =>
      }
    }
  }

  lemma {:induction false} CollectMembersAt(m: Located, at: seq<Step>, members: seq<Member>, rest: seq<Step>)
    requires Admissible(at) && |at| < MAX_PREVIEW_DEPTH
    ensures var q := at + rest;
            Get(CollectMembers(m, at, members, |at| + 1, Wilds(at)), q)
            == if Admissible(q) && rest != [] && rest[0].Name?
               then AddAll(Get(m, q), NodesOfMember(members, rest[0].key, rest[1..], SAMPLE_WIDTH), q)
               else Get(m, q)
    decreases members, 0
  {
    if members != [] {
      hide Collect, Touch, AddAll, Nodes, Get, Wilds, Admissible;
      var q, step := at + rest, Name(members[0].key);
      var m1 := Collect(m, at + [step], members[0].value, |at| + 1, Wilds(at));
      CollectMembersAt(m1, at, members[1..], rest);
      CollectOneMember(m, at, members[0], rest);
      if rest != [] && rest[0] == step {
        AddAllConcat(Get(m, q), Sampled(members[0].value, rest[1..]),
                     NodesOfMember(members[1..], rest[0].key, rest[1..], SAMPLE_WIDTH), q);
      } else if rest != [] && rest[0].Name? {
        var others := NodesOfMember(members[1..], rest[0].key, rest[1..], SAMPLE_WIDTH);
        assert [] + others == others;
      }
    }
  }

  lemma {:induction false} CollectOneMember(m: Located, at: seq<Step>, member: Member, rest: seq<Step>)
    requires Admissible(at) && |at| < MAX_PREVIEW_DEPTH
    ensures var q, step := at + rest, Name(member.key);
            Get(Collect(m, at + [step], member.value, |at| + 1, Wilds(at)), q)
            == if Admissible(q) && rest != [] && rest[0] == step
               then AddAll(Get(m, q), Sampled(member.value, rest[1..]), q)
               else Get(m, q)
    decreases member.value, 2
  {
    hide Collect, Touch, AddAll, Nodes, Get;
    var q, step := at + rest, Name(member.key);
    WildsSnoc(at, step);
    if rest != [] && rest[0] == step {
      assert q == at + [step] + rest[1..];
      CollectAt(m, at + [step], member.value, rest[1..]);
    } else {
      assert !(at + [step] <= q) by {
        assert rest != [] ==> q[|at|] == rest[0];
      }
      CollectElsewhere(m, at + [step], member.value, |at| + 1, Wilds(at), q);
    }
  }

  lemma {:induction false} CollectItemsAt(m: Located, at: seq<Step>, items: seq<Value>, rest: seq<Step>)
    requires Admissible(at) && |at| < MAX_PREVIEW_DEPTH && Wilds(at) < MAX_PREVIEW_NESTED_ARRAY_DEPTH
    ensures var q := at + rest;
            Get(CollectItems(m, at, items, |at| + 1, Wilds(at) + 1), q)
            == if Admissible(q) && rest != [] && rest[0].Wild?
               then AddAll(Get(m, q), NodesOfItems(items, rest[1..], SAMPLE_WIDTH), q)
               else Get(m, q)
    decreases items, 0
  {
    if items != [] {
      hide Collect, Touch, AddAll, Nodes, Get, Wilds, Admissible;
      var q := at + rest;
      var m1 := Collect(m, at + [Wild], items[0], |at| + 1, Wilds(at) + 1);
      CollectItemsAt(m1, at, items[1..], rest);
      CollectOneItem(m, at, items[0], rest);
      if rest != [] && rest[0].Wild? {
        AddAllConcat(Get(m, q), Sampled(items[0], rest[1..]),
                     NodesOfItems(items[1..], rest[1..], SAMPLE_WIDTH), q);
      }
    }
  }

  lemma {:induction false} CollectOneItem(m: Located, at: seq<Step>, item: Value, rest: seq<Step>)
    requires Admissible(at) && |at| < MAX_PREVIEW_DEPTH && Wilds(at) < MAX_PREVIEW_NESTED_ARRAY_DEPTH
    ensures var q := at + rest;
            Get(Collect(m, at + [Wild], item, |at| + 1, Wilds(at) + 1), q)
            == if Admissible(q) && rest != [] && rest[0].Wild?
               then AddAll(Get(m, q), Sampled(item, rest[1..]), q)
               else Get(m, q)
    decreases item, 2
  {
    hide Collect, Touch, AddAll, Nodes, Get;
    var q := at + rest;
    WildsSnoc(at, Wild);
    if rest != [] && rest[0].Wild? {
      assert q == at + [Wild] + rest[1..];
      CollectAt(m, at + [Wild], item, rest[1..]);
    } else {
      assert !(at + [Wild] <= q) by {
        assert rest != [] ==> q[|at|] == rest[0];
      }
      CollectElsewhere(m, at + [Wild], item, |at| + 1, Wilds(at) + 1, q);
    }
  }

  /** Collecting below `at` leaves every other location alone. */
  lemma {:induction false} CollectElsewhere(m: Located, at: seq<Step>, v: Value, depth: nat, arrayDepth: nat,
                                            q: seq<Step>)
    requires !(at <= q)
    ensures Get(Collect(m, at, v, depth, arrayDepth), q) == Get(m, q)
    decreases v, 1
  {
    hide Touch;
    var m1 := m[at := Touch(Get(m, at), v, Stops(v, depth, arrayDepth))];
    if !Stops(v, depth, arrayDepth) {
      match v {
        case Object(members) => MembersElsewhere(m1, at, members, depth + 1, arrayDepth, q);
        case Array(items) => ItemsElsewhere(m1, at, Sample(items), depth + 1, arrayDepth + 1, q);
        case _ =>
      }
    }
  }

  lemma {:induction false} MembersElsewhere(m: Located, at: seq<Step>, members: seq<Member>, depth: nat,
                                            arrayDepth: nat, q: seq<Step>)
    requires !(at <= q)
    ensures Get(CollectMembers(m, at, members, depth, arrayDepth), q) == Get(m, q)
    decreases members, 0
  {
    if members != [] {
      hide Collect;
      var step := Name(members[0].key);
      assert at <= at + [step];
      CollectElsewhere(m, at + [step], members[0].value, depth, arrayDepth, q);
      var m1 := Collect(m, at + [step], members[0].value, depth, arrayDepth);
      MembersElsewhere(m1, at, members[1..], depth, arrayDepth, q);
    }
  }

  lemma {:induction false} ItemsElsewhere(m: Located, at: seq<Step>, items: seq<Value>, depth: nat,
                                          arrayDepth: nat, q: seq<Step>)
    requires !(at <= q)
    ensures Get(CollectItems(m, at, items, depth, arrayDepth), q) == Get(m, q)
    decreases items, 0
  {
    if items != [] {
      hide Collect;
      assert at <= at + [Wild];
      CollectElsewhere(m, at + [Wild], items[0], depth, arrayDepth, q);
      ItemsElsewhere(Collect(m, at + [Wild], items[0], depth, arrayDepth), at, items[1..], depth, arrayDepth, q);
    }
  }

  function CountNulls(nodes: seq<Value>): nat {
    if nodes == [] then 0
    else CountNulls(nodes[..|nodes| - 1]) + if nodes[|nodes| - 1].Null? then 1 else 0
  }

  /** `bound` is the length of some array among the nodes, and `order` holds against all others. */
  ghost predicate IsBound(bound: Option<nat>, nodes: seq<Value>, order: (nat, nat) -> bool) {
    match bound
    case None => forall v <- nodes :: !v.Array?
    case Some(n) =>
      && (exists v <- nodes :: v.Array? && |v.items| == n)
      && (forall v <- nodes :: v.Array? ==> order(n, |v.items|))
  }

  /** What a statistic says about the nodes of its path. */
  ghost predicate Describes(s: Stat, nodes: seq<Value>, q: seq<Step>) {
    && nodes != []
    && s.valueType == TypeName(nodes[0])
    && s.present == |nodes|
    && s.nulls == CountNulls(nodes)
    && IsBound(s.arrayMin, nodes, (n, k) => n <= k)
    && IsBound(s.arrayMax, nodes, (n, k) => n >= k)
    && (s.stopped <==> exists v <- nodes :: Stops(v, |q|, Wilds(q)))
  }

  lemma {:induction false} AddAllDescribes(nodes: seq<Value>, q: seq<Step>)
    requires nodes != []
    ensures AddAll(None, nodes, q).Some? && Describes(AddAll(None, nodes, q).value, nodes, q)
  {
    var init, last := nodes[..|nodes| - 1], nodes[|nodes| - 1];
    assert forall v :: v in nodes <==> v in init || v == last;
    if init == [] {
      assert nodes == [last];
    } else {
      AddAllDescribes(init, q);
    }
  }

  /** The statistics of a whole document. */
  function Statistics(root: Value): Located {
    Collect(map[], [], root, 0, 0)
  }

  /** A path has a statistic exactly when it is within the limits and selects a sampled node;
      the statistic describes exactly those nodes. */
  lemma StatisticsDescribe(root: Value, q: seq<Step>)
    ensures q in Statistics(root) <==> Admissible(q) && Sampled(root, q) != []
    ensures q in Statistics(root) ==> Describes(Statistics(root)[q], Sampled(root, q), q)
  {
    CollectAt(map[], [], root, q);
    assert [] + q == q;
    if Sampled(root, q) != [] {
      AddAllDescribes(Sampled(root, q), q);
    }
  }

  lemma {:induction false} NullsAtMost(nodes: seq<Value>)
    ensures CountNulls(nodes) <= |nodes|
  {
    if nodes != [] {
      NullsAtMost(nodes[..|nodes| - 1]);
    }
  }

  /** On every path, nulls never exceed presence, and the array bounds are both there and ordered, or both absent. */
  lemma StatisticBounds(root: Value, q: seq<Step>)
    requires q in Statistics(root)
    ensures var s := Statistics(root)[q];
            && 1 <= s.present && s.nulls <= s.present
            && (s.arrayMin.Some? <==> s.arrayMax.Some?)
            && (s.arrayMin.Some? ==> s.arrayMin.value <= s.arrayMax.value)
  {
    hide Collect;
    StatisticsDescribe(root, q);
    NullsAtMost(Sampled(root, q));
  }

  // ---------- against the query language ----------

  /** The nodes RFC 9535 selects with names (section 2.3.1) and wildcards (section 2.3.2): a wildcard
      takes the children of an array or of an object. */
  function Select(v: Value, steps: seq<Step>): seq<Value>
    decreases v, 1
  {
    if steps == [] then [v]
    else
      match (steps[0], v)
      case (Name(key), Object(members)) => SelectMember(members, key, steps[1..])
      case (Wild, Array(items)) => SelectItems(items, steps[1..])
      case (Wild, Object(members)) => SelectValues(members, steps[1..])
      case _ => []
  }

  function SelectMember(members: seq<Member>, key: string, steps: seq<Step>): seq<Value>
    decreases members, 0
  {
    if members == [] then []
    else
      (if members[0].key == key then Select(members[0].value, steps) else [])
      + SelectMember(members[1..], key, steps)
  }

  function SelectItems(items: seq<Value>, steps: seq<Step>): seq<Value>
    decreases items, 0
  {
    if items == [] then [] else Select(items[0], steps) + SelectItems(items[1..], steps)
  }

  function SelectValues(members: seq<Member>, steps: seq<Step>): seq<Value>
    decreases members, 0
  {
    if members == [] then [] else Select(members[0].value, steps) + SelectValues(members[1..], steps)
  }

  /** The path comes to an object at one of its wildcards. */
  ghost predicate MeetsObject(v: Value, steps: seq<Step>)
    decreases v
  {
    steps != [] &&
    match (steps[0], v)
    case (Name(key), Object(members)) =>
      exists i | 0 <= i < |members| :: members[i].key == key && MeetsObject(members[i].value, steps[1..])
    case (Wild, Array(items)) => exists i | 0 <= i < |items| :: MeetsObject(items[i], steps[1..])
    case (Wild, Object(_)) => true
    case _ => false
  }

  /** Away from objects under a wildcard, the sampler's reach and the query language agree. */
  lemma {:induction false} SelectIsReached(v: Value, steps: seq<Step>)
    requires !MeetsObject(v, steps)
    ensures Select(v, steps) == Nodes(v, steps, None)
    decreases v, 1
  {
    if steps != [] {
      match (steps[0], v) {
        case (Name(key), Object(members)) => SelectMemberIsReached(members, key, steps[1..]);
        case (Wild, Array(items)) => SelectItemsIsReached(items, steps[1..]);
        case _ =>
      }
    }
  }

  lemma {:induction false} SelectMemberIsReached(members: seq<Member>, key: string, steps: seq<Step>)
    requires forall i | 0 <= i < |members| :: members[i].key == key ==> !MeetsObject(members[i].value, steps)
    ensures SelectMember(members, key, steps) == NodesOfMember(members, key, steps, None)
    decreases members, 0
  {
    if members != [] {
      if members[0].key == key {
        SelectIsReached(members[0].value, steps);
      }
      SelectMemberIsReached(members[1..], key, steps);
    }
  }

  lemma {:induction false} SelectItemsIsReached(items: seq<Value>, steps: seq<Step>)
    requires forall i | 0 <= i < |items| :: !MeetsObject(items[i], steps)
    ensures SelectItems(items, steps) == NodesOfItems(items, steps, None)
    decreases items, 0
  {
    if items != [] {
      SelectIsReached(items[0], steps);
      SelectItemsIsReached(items[1..], steps);
    }
  }

  lemma {:induction false} WildsCons(steps: seq<Step>)
    requires steps != []
    ensures Wilds(steps) == (if steps[0].Wild? then 1 else 0) + Wilds(steps[1..])
  {
    if |steps| > 1 {
      WildsCons(steps[..|steps| - 1]);
      assert steps[..|steps| - 1][1..] == steps[1..][..|steps[1..]| - 1];
    }
  }

  lemma {:induction false} NamesMeetNothing(v: Value, steps: seq<Step>)
    requires Wilds(steps) == 0
    ensures !MeetsObject(v, steps)
    decreases v
  {
    if steps != [] {
      WildsCons(steps);
      if v.Object? {
        forall i | 0 <= i < |v.members| ensures !MeetsObject(v.members[i].value, steps[1..]) {
          NamesMeetNothing(v.members[i].value, steps[1..]);
        }
      }
    }
  }

  /** Names lead to one node at most, so a path whose one wildcard meets an object reaches nothing. */
  lemma {:induction false} MeetingReachesNothing(v: Value, steps: seq<Step>)
    requires UniqueKeys(v) && Wilds(steps) <= 1 && MeetsObject(v, steps)
    ensures Nodes(v, steps, None) == []
    decreases v
  {
    WildsCons(steps);
    match (steps[0], v) {
      case (Name(key), Object(members)) =>
        var i :| 0 <= i < |members| && members[i].key == key && MeetsObject(members[i].value, steps[1..]);
        MeetingReachesNothing(members[i].value, steps[1..]);
        OnlyMember(members, i, steps[1..]);
      case (Wild, Array(items)) =>
        var i :| 0 <= i < |items| && MeetsObject(items[i], steps[1..]);
        NamesMeetNothing(items[i], steps[1..]);
      case _ =>
    }
  }

  lemma {:induction false} OnlyMember(members: seq<Member>, i: nat, steps: seq<Step>)
    requires DistinctKeysIn(members) && i < |members|
    ensures NodesOfMember(members, members[i].key, steps, None) == Nodes(members[i].value, steps, None)
  {
    if i == 0 {
      NoMember(members[1..], members[0].key, steps);
    } else {
      OnlyMember(members[1..], i - 1, steps);
      assert members[0].key != members[i].key;
    }
  }

  lemma {:induction false} NoMember(members: seq<Member>, key: string, steps: seq<Step>)
    requires forall i | 0 <= i < |members| :: members[i].key != key
    ensures NodesOfMember(members, key, steps, None) == []
  {
    if members != [] {
      NoMember(members[1..], key, steps);
    }
  }

  /** The document with every array cut to its first ten elements. */
  function CutDocument(v: Value): Value
    decreases v, 1
  {
    match v
    case Array(items) => Array(CutAll(Sample(items)))
    case Object(members) => Object(CutMembers(members))
    case _ => v
  }

  function CutAll(items: seq<Value>): seq<Value>
    decreases items, 0
  {
    if items == [] then [] else [CutDocument(items[0])] + CutAll(items[1..])
  }

  function CutMembers(members: seq<Member>): seq<Member>
    decreases members, 0
  {
    if members == [] then []
    else [Member(members[0].key, CutDocument(members[0].value))] + CutMembers(members[1..])
  }

  lemma {:induction false} CutAllConcat(a: seq<Value>, b: seq<Value>)
    ensures CutAll(a + b) == CutAll(a) + CutAll(b)
  {
    if a == [] {
      assert a + b == b;
    } else {
      assert (a + b)[1..] == a[1..] + b;
      CutAllConcat(a[1..], b);
    }
  }

  /** Reaching into the cut document is sampling the original. */
  lemma {:induction false} ReachedInCutDocument(v: Value, steps: seq<Step>)
    ensures Nodes(CutDocument(v), steps, None) == CutAll(Sampled(v, steps))
    decreases v, 1
  {
    if steps == [] {
      assert CutAll([v]) == [CutDocument(v)] + CutAll([v][1..]);
    } else {
      match (steps[0], v) {
        case (Name(key), Object(members)) => ReachedInCutMembers(members, key, steps[1..]);
        case (Wild, Array(items)) => ReachedInCutItems(Sample(items), steps[1..]);
        case _ =>
      }
    }
  }

  lemma {:induction false} ReachedInCutMembers(members: seq<Member>, key: string, steps: seq<Step>)
    ensures NodesOfMember(CutMembers(members), key, steps, None)
            == CutAll(NodesOfMember(members, key, steps, SAMPLE_WIDTH))
    decreases members, 0
  {
    if members != [] {
      ReachedInCutDocument(members[0].value, steps);
      ReachedInCutMembers(members[1..], key, steps);
      CutAllConcat(if members[0].key == key then Sampled(members[0].value, steps) else [],
                   NodesOfMember(members[1..], key, steps, SAMPLE_WIDTH));
      assert CutMembers(members)[1..] == CutMembers(members[1..]);
    }
  }

  lemma {:induction false} ReachedInCutItems(items: seq<Value>, steps: seq<Step>)
    ensures NodesOfItems(CutAll(items), steps, None) == CutAll(NodesOfItems(items, steps, SAMPLE_WIDTH))
    decreases items, 0
  {
    if items != [] {
      ReachedInCutDocument(items[0], steps);
      ReachedInCutItems(items[1..], steps);
      CutAllConcat(Sampled(items[0], steps), NodesOfItems(items[1..], steps, SAMPLE_WIDTH));
      assert CutAll(items)[1..] == CutAll(items[1..]);
    }
  }

  lemma {:induction false} CutAllLen(items: seq<Value>)
    ensures |CutAll(items)| == |items|
  {
    if items != [] {
      CutAllLen(items[1..]);
    }
  }

  /** Cutting arrays loses nodes and gains none. */
  lemma {:induction false} SampledAtMostReached(v: Value, steps: seq<Step>, width: Width)
    ensures |Nodes(v, steps, width)| <= |Nodes(v, steps, None)|
    decreases v, 1
  {
    if steps != [] {
      match (steps[0], v) {
        case (Name(key), Object(members)) => MemberNodesAtMost(members, key, steps[1..], width);
        case (Wild, Array(items)) =>
          ItemNodesAtMost(Cut(items, width), steps[1..], width);
          ReachedPrefix(items, |Cut(items, width)|, steps[1..]);
        case _ =>
      }
    }
  }

  lemma {:induction false} MemberNodesAtMost(members: seq<Member>, key: string, steps: seq<Step>, width: Width)
    ensures |NodesOfMember(members, key, steps, width)| <= |NodesOfMember(members, key, steps, None)|
    decreases members, 0
  {
    if members != [] {
      SampledAtMostReached(members[0].value, steps, width);
      MemberNodesAtMost(members[1..], key, steps, width);
    }
  }

  lemma {:induction false} ItemNodesAtMost(items: seq<Value>, steps: seq<Step>, width: Width)
    ensures |NodesOfItems(items, steps, width)| <= |NodesOfItems(items, steps, None)|
    decreases items, 0
  {
    if items != [] {
      SampledAtMostReached(items[0], steps, width);
      ItemNodesAtMost(items[1..], steps, width);
    }
  }

  lemma {:induction false} ReachedPrefix(items: seq<Value>, n: nat, steps: seq<Step>)
    requires n <= |items|
    ensures |NodesOfItems(items[..n], steps, None)| <= |NodesOfItems(items, steps, None)|
  {
    if n > 0 {
      assert items[..n][1..] == items[1..][..n - 1];
      ReachedPrefix(items[1..], n - 1, steps);
    }
  }

  // ---------- the cut document ----------

  lemma {:induction false} CutAllAt(items: seq<Value>, i: nat)
    requires i < |items|
    ensures |CutAll(items)| == |items| && CutAll(items)[i] == CutDocument(items[i])
  {
    CutAllLen(items);
    if i > 0 {
      CutAllAt(items[1..], i - 1);
    }
  }

  lemma {:induction false} CutMembersLen(members: seq<Member>)
    ensures |CutMembers(members)| == |members|
  {
    if members != [] {
      CutMembersLen(members[1..]);
    }
  }

  lemma {:induction false} CutMembersAt(members: seq<Member>, i: nat)
    requires i < |members|
    ensures |CutMembers(members)| == |members|
    ensures CutMembers(members)[i] == Member(members[i].key, CutDocument(members[i].value))
  {
    CutMembersLen(members);
    if i > 0 {
      CutMembersAt(members[1..], i - 1);
    }
  }

  /** Cutting arrays moves no object under or away from a path's one wildcard. */
  lemma {:induction false} MeetsObjectInCut(v: Value, steps: seq<Step>)
    requires Wilds(steps) <= 1
    ensures MeetsObject(CutDocument(v), steps) <==> MeetsObject(v, steps)
    decreases v
  {
    if steps != [] {
      WildsCons(steps);
      match (steps[0], v) {
        case (Name(key), Object(members)) =>
          CutMembersLen(members);
          forall i | 0 <= i < |members|
            ensures CutMembers(members)[i] == Member(members[i].key, CutDocument(members[i].value))
            ensures MeetsObject(CutDocument(members[i].value), steps[1..])
                    <==> MeetsObject(members[i].value, steps[1..])
          {
            CutMembersAt(members, i);
            MeetsObjectInCut(members[i].value, steps[1..]);
          }
          MeetsThroughName(CutMembers(members), members, key, steps);
        case (Wild, Array(items)) =>
          forall u: Value ensures !MeetsObject(u, steps[1..]) {
            NamesMeetNothing(u, steps[1..]);
          }
        case _ =>
      }
    }
  }

  lemma MeetsThroughName(cut: seq<Member>, members: seq<Member>, key: string, steps: seq<Step>)
    requires steps != [] && steps[0] == Name(key) && |cut| == |members|
    requires forall i | 0 <= i < |members| ::
               cut[i].key == members[i].key
               && (MeetsObject(cut[i].value, steps[1..]) <==> MeetsObject(members[i].value, steps[1..]))
    ensures MeetsObject(Object(cut), steps) <==> MeetsObject(Object(members), steps)
  {
  }

  /** `present_sampled` counts the nodes its path, taken as a query, selects in the document with
      arrays cut to ten elements; it never exceeds what the path selects in full, and the path's
      wildcard, if it has one, is at an array. Within the limits, a path that selects something in the
      cut document has a statistic exactly when its wildcard is not at an object: `$[*]` selects
      the values of an object too, and the sampler records none of them. */
  lemma PresentCountsSelectedNodes(root: Value, q: seq<Step>)
    requires UniqueKeys(root)
    ensures q in Statistics(root) ==>
              && Parse(Print(q), Printed) == Some(q)
              && !MeetsObject(root, q)
              && Statistics(root)[q].present == |Select(CutDocument(root), q)|
              && Statistics(root)[q].present <= |Select(root, q)|
    ensures Admissible(q) ==>
              (q in Statistics(root) <==> Select(CutDocument(root), q) != [] && !MeetsObject(root, q))
  {
    hide Collect, Parse, Print, Describes;
    ParsePrint(q);
    StatisticsDescribe(root, q);
    PresentIsCount(root, q);
    if Admissible(q) {
      ReachedInCutDocument(root, q);
      CutAllLen(Sampled(root, q));
      SampledAtMostReached(root, q, SAMPLE_WIDTH);
      MeetsObjectInCut(root, q);
      if MeetsObject(root, q) {
        MeetingReachesNothing(root, q);
      } else {
        SelectIsReached(root, q);
        SelectIsReached(CutDocument(root), q);
      }
    }
  }

  lemma PresentIsCount(root: Value, q: seq<Step>)
    ensures q in Statistics(root) ==> Statistics(root)[q].present == |Sampled(root, q)|
  {
    hide Collect;
    StatisticsDescribe(root, q);
  }
}
