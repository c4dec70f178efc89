/**
 Ranking the sampled paths and cutting the list to its budget: `build_preview`
 (backend/crates/json-output/src/preview.rs). A hash map yields its entries in no particular
 order; the method below visits them in an arbitrary one and still has a single possible result.
 */
module PreviewRanking {
  import opened Wrappers
  import opened Text
  import opened Json
  import opened PreviewPath
  import opened PreviewStats

  const MAX_PREVIEW_BYTES: nat := 4096
  const MAX_PREVIEW_PATHS: nat := 20
  const ISIZE_MAX: nat := 0x7FFF_FFFF_FFFF_FFFF

  datatype Entry = Entry(path: string, stat: Stat)

  datatype Preview = Preview(pathCount: nat, returnedPaths: nat, truncated: bool, paths: seq<Entry>)

  // ---------- ranking ----------

  function Score(e: Entry): int {
    Min(e.stat.present, ISIZE_MAX)
    - (if e.stat.stopped then 1000 else 0)
    - (if e.stat.valueType == "object" then 200 else if e.stat.valueType == "array" then 100 else 0)
  }

  /** Higher scores first, then paths in order. */
  predicate Before(a: Entry, b: Entry) {
    Score(a) > Score(b) || (Score(a) == Score(b) && Less(a.path, b.path))
  }

  ghost predicate IsContainer(e: Entry) {
    e.stat.valueType == "object" || e.stat.valueType == "array"
  }

  /** With the paths to break a tie: `a` before `b` exactly when its count exceeds `b`'s by more than `lag`. */
  ghost predicate Leads(a: Entry, b: Entry, lag: int) {
    a.stat.present > b.stat.present + lag || (a.stat.present == b.stat.present + lag && Less(a.path, b.path))
  }

  /** Counts decide among like entries; not having been expanded costs 1000 samples, being an
      object 200, being an array 100. */
  lemma BeforeIff(a: Entry, b: Entry)
    requires a.stat.present <= ISIZE_MAX && b.stat.present <= ISIZE_MAX
    ensures a.stat.stopped == b.stat.stopped && a.stat.valueType == b.stat.valueType ==>
              (Before(a, b) <==> Leads(a, b, 0))
    ensures a.stat.stopped && !b.stat.stopped && a.stat.valueType == b.stat.valueType ==>
              (Before(a, b) <==> Leads(a, b, 1000)) && (Before(b, a) <==> Leads(b, a, -1000))
    ensures a.stat.stopped == b.stat.stopped && a.stat.valueType == "object" && !IsContainer(b) ==>
              (Before(a, b) <==> Leads(a, b, 200)) && (Before(b, a) <==> Leads(b, a, -200))
    ensures a.stat.stopped == b.stat.stopped && a.stat.valueType == "array" && !IsContainer(b) ==>
              (Before(a, b) <==> Leads(a, b, 100)) && (Before(b, a) <==> Leads(b, a, -100))
    ensures a.stat.stopped == b.stat.stopped && !IsContainer(a) && !IsContainer(b) ==>
              (Before(a, b) <==> Leads(a, b, 0))
  {
    hide Less;
  }

  lemma BeforeTotal(a: Entry, b: Entry)
    ensures Before(a, b) || Before(b, a) || a.path == b.path
    ensures !(Before(a, b) && Before(b, a)) && !Before(a, a)
  {
    LessTotal(a.path, b.path);
    LessTotal(a.path, a.path);
  }

  lemma BeforeTransitive(a: Entry, b: Entry, c: Entry)
    requires Before(a, b) && Before(b, c)
    ensures Before(a, c)
  {
    if Less(a.path, b.path) && Less(b.path, c.path) {
      LessTransitive(a.path, b.path, c.path);
    }
  }

  ghost predicate Ranked(entries: seq<Entry>) {
    forall i, j | 0 <= i < j < |entries| :: Before(entries[i], entries[j])
  }

  /** The entries of the table, each once, in ranking order. */
  ghost predicate IsRanking(entries: seq<Entry>, stats: map<string, Stat>) {
    && Ranked(entries)
    && forall e :: e in entries <==> e.path in stats && stats[e.path] == e.stat
  }

  function Insert(e: Entry, entries: seq<Entry>): seq<Entry> {
    if entries == [] || Before(e, entries[0]) then [e] + entries
    else [entries[0]] + Insert(e, entries[1..])
  }

  lemma {:induction false} InsertRanks(e: Entry, entries: seq<Entry>)
    requires Ranked(entries) && forall x <- entries :: x.path != e.path
    ensures Ranked(Insert(e, entries))
    ensures forall x :: x in Insert(e, entries) <==> x == e || x in entries
  {
    if entries == [] {
    } else if Before(e, entries[0]) {
      forall j | 1 <= j < |entries| ensures Before(e, entries[j]) {
        BeforeTransitive(e, entries[0], entries[j]);
      }
    } else {
      InsertRanks(e, entries[1..]);
      BeforeTotal(e, entries[0]);
      assert entries[0] in entries;
      assert forall x <- entries[1..] :: Before(entries[0], x);
      assert forall x <- Insert(e, entries[1..]) :: Before(entries[0], x);
    }
  }

  lemma TailSubset(a: seq<Entry>, b: seq<Entry>)
    requires Ranked(a) && a != [] && b != [] && a[0] == b[0] && !Before(a[0], a[0])
    requires forall e <- a :: e in b
    ensures forall e <- a[1..] :: e in b[1..]
  {
    forall e <- a[1..] ensures e in b[1..] {
      assert Before(a[0], e);
      assert e in a && e in b;
    }
  }

  /** There is one ranking, whatever order the table was read in. */
  lemma {:induction false} RankingUnique(a: seq<Entry>, b: seq<Entry>)
    requires Ranked(a) && Ranked(b) && forall e :: e in a <==> e in b
    ensures a == b
  {
    assert (b != [] ==> b[0] in a) && (a != [] ==> a[0] in b);
    if a != [] {
      if a[0] != b[0] {
        BeforeTotal(a[0], b[0]);
        assert false;
      }
      BeforeTotal(a[0], a[0]);
      TailSubset(a, b);
      TailSubset(b, a);
      RankingUnique(a[1..], b[1..]);
    }
  }

  // ---------- the byte budget ----------

  function OptionalNatLen(field: nat, n: Option<nat>): nat {
    if n == None then 0 else field + Digits(n.value)
  }

  function EntryLen(e: Entry): nat {
    |"{\"path\":"| + StrLen(e.path) + |",\"type\":"| + StrLen(e.stat.valueType)
    + |",\"present_sampled\":"| + Digits(e.stat.present)
    + (if e.stat.nulls == 0 then 0 else |",\"nulls_sampled\":"| + Digits(e.stat.nulls))
    + OptionalNatLen(|",\"array_length_min_sampled\":"|, e.stat.arrayMin)
    + OptionalNatLen(|",\"array_length_max_sampled\":"|, e.stat.arrayMax)
    + (if e.stat.stopped then |",\"nested_expansion_stopped\":true"| else 0)
    + |"}"|
  }

  function PathsLen(entries: seq<Entry>): nat {
    ArrayLen(entries, EntryLen)
  }

  function NatValue(n: Option<nat>): Option<Value> {
    if n.Some? then Some(Number(Decimal(n.value))) else None
  }

  function Nulls(e: Entry): Option<nat> {
    if e.stat.nulls == 0 then None else Some(e.stat.nulls)
  }

  function Stopped(e: Entry): Option<Value> {
    if e.stat.stopped then Some(Bool(true)) else None
  }

  /** The fields left out when they say nothing. */
  function SampledFields(e: Entry): seq<Member> {
    Field("nulls_sampled", NatValue(Nulls(e)),
    Field("array_length_min_sampled", NatValue(e.stat.arrayMin),
    Field("array_length_max_sampled", NatValue(e.stat.arrayMax),
    Field("nested_expansion_stopped", Stopped(e), []))))
  }

  function EntryJson(e: Entry): Value {
    Object(Field("path", Some(Str(e.path)),
           Field("type", Some(Str(e.stat.valueType)),
           Field("present_sampled", Some(Number(Decimal(e.stat.present))),
           SampledFields(e)))))
  }

  lemma EntryKeys()
    ensures StrLen("path") == 6 && StrLen("type") == 6 && StrLen("present_sampled") == 17
  {
    var a, b, c := "path", "type", "present_sampled";
    hide CharsLen;
    PlainLen(a);
    PlainLen(b);
    PlainLen(c);
  }

  lemma SampledKeys()
    ensures StrLen("nulls_sampled") == 15
    ensures StrLen("array_length_min_sampled") == StrLen("array_length_max_sampled") == 26
    ensures StrLen("nested_expansion_stopped") == 26
  {
    var a, b, c, d :=
      "nulls_sampled", "array_length_min_sampled", "array_length_max_sampled", "nested_expansion_stopped";
    hide CharsLen;
    PlainLen(a);
    PlainLen(b);
    PlainLen(c);
    PlainLen(d);
  }

  lemma SampledFieldsLen(e: Entry)
    ensures MembersLen(SampledFields(e))
            == (if e.stat.nulls == 0 then 0 else |",\"nulls_sampled\":"| + Digits(e.stat.nulls))
               + OptionalNatLen(|",\"array_length_min_sampled\":"|, e.stat.arrayMin)
               + OptionalNatLen(|",\"array_length_max_sampled\":"|, e.stat.arrayMax)
               + (if e.stat.stopped then |",\"nested_expansion_stopped\":true"| else 0)
  {
    hide StrLen, Field, Decimal, Digits;
    SampledKeys();
  }

  lemma EntryJsonLen(e: Entry)
    ensures Len(EntryJson(e)) == EntryLen(e)
  {
    hide StrLen, Field, Decimal, Digits, SampledFields, OptionalNatLen;
    EntryKeys();
    SampledFieldsLen(e);
  }

  /** The budget counts the bytes of the returned paths as encoded. */
  lemma PathsLenIs(entries: seq<Entry>)
    ensures PathsLen(entries) == |Compact(Array(Values(entries, EntryJson)))|
  {
    hide EntryJson, EntryLen, Values;
    forall i | 0 <= i < |entries| ensures Len(EntryJson(entries[i])) == EntryLen(entries[i]) {
      EntryJsonLen(entries[i]);
    }
    ValuesLen(entries, EntryJson, EntryLen);
  }

  lemma NatValueInjective(a: Option<nat>, b: Option<nat>)
    requires NatValue(a) == NatValue(b)
    ensures a == b
  {
    if a.Some? && b.Some? {
      DecimalIs(a.value);
      DecimalIs(b.value);
    }
  }

  lemma SampledFieldsInjective(a: Entry, b: Entry)
    requires SampledFields(a) == SampledFields(b)
    ensures a.stat.nulls == b.stat.nulls && a.stat.arrayMin == b.stat.arrayMin
    ensures a.stat.arrayMax == b.stat.arrayMax && a.stat.stopped == b.stat.stopped
  {
    hide Field, Without, StrLen, Len, MembersLen, NatValue;
    NothingWithout();
    FourInjective("nulls_sampled", "array_length_min_sampled", "array_length_max_sampled", "nested_expansion_stopped",
                  NatValue(Nulls(a)), NatValue(a.stat.arrayMin), NatValue(a.stat.arrayMax), Stopped(a), [],
                  NatValue(Nulls(b)), NatValue(b.stat.arrayMin), NatValue(b.stat.arrayMax), Stopped(b), []);
    NatValueInjective(Nulls(a), Nulls(b));
    NatValueInjective(a.stat.arrayMin, b.stat.arrayMin);
    NatValueInjective(a.stat.arrayMax, b.stat.arrayMax);
  }

  lemma SampledFieldsWithout(e: Entry, key: string)
    requires key in {"path", "type", "present_sampled"}
    ensures Without(SampledFields(e), key)
  {
    hide Field, Without, StrLen, Len, MembersLen, NatValue;
    NothingWithout();
    FourWithout(key, "nulls_sampled", "array_length_min_sampled", "array_length_max_sampled",
                "nested_expansion_stopped",
                NatValue(Nulls(e)), NatValue(e.stat.arrayMin), NatValue(e.stat.arrayMax), Stopped(e), []);
  }

  /** No field of an entry is lost in its encoding. */
  lemma EntryJsonInjective(a: Entry, b: Entry)
    requires EntryJson(a) == EntryJson(b)
    ensures a == b
  {
    hide Field, Without, StrLen, Len, MembersLen, Decimal, SampledFields;
    forall e <- {a, b}, key <- {"path", "type", "present_sampled"} ensures Without(SampledFields(e), key) {
      SampledFieldsWithout(e, key);
    }
    ThreeInjective("path", "type", "present_sampled",
                   Some(Str(a.path)), Some(Str(a.stat.valueType)), Some(Number(Decimal(a.stat.present))),
                   SampledFields(a),
                   Some(Str(b.path)), Some(Str(b.stat.valueType)), Some(Number(Decimal(b.stat.present))),
                   SampledFields(b));
    SampledFieldsInjective(a, b);
    DecimalIs(a.stat.present);
    DecimalIs(b.stat.present);
  }

  // ---------- the preview ----------

  /** The longest prefix of the ranking with at most 20 entries and at most 4096 encoded bytes. */
  ghost predicate LongestPrefix(paths: seq<Entry>, ranking: seq<Entry>) {
    && |paths| <= MAX_PREVIEW_PATHS && paths <= ranking && PathsLen(paths) <= MAX_PREVIEW_BYTES
    && forall n | |paths| < n <= |ranking| && n <= MAX_PREVIEW_PATHS :: PathsLen(ranking[..n]) > MAX_PREVIEW_BYTES
  }

  ghost predicate IsPreview(p: Preview, stats: map<string, Stat>) {
    && p.pathCount == |stats|
    && p.returnedPaths == |p.paths|
    && (p.truncated <==> p.returnedPaths < p.pathCount)
    && exists ranking :: IsRanking(ranking, stats) && |ranking| == |stats| && LongestPrefix(p.paths, ranking)
  }

  /** The statistics of a document, keyed by printed path. */
  ghost predicate PrintedFrom(root: Value, stats: map<string, Stat>) {
    && (forall q <- Statistics(root) :: Print(q) in stats && stats[Print(q)] == Statistics(root)[q])
    && (forall p <- stats :: exists q :: q in Statistics(root) && Print(q) == p)
  }

  /** What BuildPreview may return for a document. */
  ghost predicate IsPreviewOf(preview: Option<Preview>, root: Value) {
    preview.Some? && exists stats :: PrintedFrom(root, stats) && IsPreview(preview.value, stats)
  }

  lemma RootCounted(root: Value)
    ensures [] in Statistics(root)
  {
    hide Collect;
    StatisticsDescribe(root, []);
  }

  /** The preview of a document does not depend on the order its hash map is read in: any two
      results of BuildPreview are equal. */
  lemma PreviewUnique(root: Value, p: Preview, ps: map<string, Stat>, q: Preview, qs: map<string, Stat>)
    requires PrintedFrom(root, ps) && IsPreview(p, ps)
    requires PrintedFrom(root, qs) && IsPreview(q, qs)
    ensures p == q
  {
    hide PathsLen, Score, Collect, Print;
    assert ps == qs by {
      forall k <- ps ensures k in qs && ps[k] == qs[k] {}
      forall k <- qs ensures k in ps {}
    }
    var r :| IsRanking(r, ps) && |r| == |ps| && LongestPrefix(p.paths, r);
    var s :| IsRanking(s, ps) && |s| == |ps| && LongestPrefix(q.paths, s);
    RankingUnique(r, s);
    LongestUnique(p.paths, q.paths, r);
    LongestUnique(q.paths, p.paths, r);
  }

  lemma LongestUnique(a: seq<Entry>, b: seq<Entry>, ranking: seq<Entry>)
    requires LongestPrefix(a, ranking) && LongestPrefix(b, ranking)
    ensures |b| <= |a| && b <= a
  {
    hide PathsLen;
    assert b == ranking[..|b|];
  }

  method BuildPreview(root: Value) returns (preview: Option<Preview>, ghost stats: map<string, Stat>)
    ensures IsPreviewOf(preview, root)
    ensures PrintedFrom(root, stats) && IsPreview(preview.value, stats)
  {
    hide PathsLen, Collect, Score, Print, LongestPrefix;
    var table := new StatsTable();
    PrintRoot();
    table.CollectPreview("$", [], root, 0, 0);
    assert table.located == Statistics(root);
    var entries := table.stats;
    stats := entries;
    RootCounted(root);
    assert Print([]) in stats;
    if |entries| == 0 {
      return None, stats;
    }
    var ranking := RankEntries(entries);
    var paths, truncated := CutToBudget(ranking);
    preview := Some(Preview(|entries|, |paths|, truncated, paths));
    assert PrintedFrom(root, stats) && IsPreview(preview.value, stats);
  }

  lemma PrintRoot()
    ensures Print([]) == "$"
  {
  }

  /** The two cuts: to 20 entries, then entry by entry to the byte budget. */
  method CutToBudget(ranking: seq<Entry>) returns (paths: seq<Entry>, truncated: bool)
    ensures LongestPrefix(paths, ranking) && (truncated <==> |paths| < |ranking|)
  {
    hide PathsLen;
    paths := ranking;
    truncated := false;
    if |paths| > MAX_PREVIEW_PATHS {
      paths := paths[..MAX_PREVIEW_PATHS];
      truncated := true;
    }
    while PathsLen(paths) > MAX_PREVIEW_BYTES && paths != []
      invariant |paths| <= MAX_PREVIEW_PATHS && paths <= ranking
      invariant truncated <==> |paths| < |ranking|
      invariant forall n | |paths| < n <= |ranking| && n <= MAX_PREVIEW_PATHS ::
                  PathsLen(ranking[..n]) > MAX_PREVIEW_BYTES
      decreases |paths|
    {
      assert paths == ranking[..|paths|];
      paths := paths[..|paths| - 1];
      truncated := true;
    }
    EmptyPathsLen();
  }

  lemma EmptyPathsLen()
    ensures PathsLen([]) <= MAX_PREVIEW_BYTES
  {
  }

  /** Reads the table in an arbitrary order and sorts what it reads. */
  method RankEntries(stats: map<string, Stat>) returns (ranking: seq<Entry>)
    ensures IsRanking(ranking, stats) && |ranking| == |stats|
  {
    hide Score;
    ranking := [];
    var unread := stats.Keys;
    while unread != {}
      invariant unread <= stats.Keys
      invariant Ranked(ranking) && |ranking| + |unread| == |stats|
      invariant forall e :: e in ranking <==> e.path in stats && e.path !in unread && stats[e.path] == e.stat
      decreases |unread|
    {
      var path :| path in unread;
      var e := Entry(path, stats[path]);
      InsertRanks(e, ranking);
      InsertLen(e, ranking);
      ranking := Insert(e, ranking);
      unread := unread - {path};
    }
  }

  lemma {:induction false} InsertLen(e: Entry, entries: seq<Entry>)
    ensures |Insert(e, entries)| == |entries| + 1
  {
    if entries != [] && !Before(e, entries[0]) {
      InsertLen(e, entries[1..]);
    }
  }
}
