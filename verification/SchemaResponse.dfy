/**
 The sql_schema response and its JSON encoding (backend/crates/service/src/sql_schema/output.rs):
 the tree serialization writes, field by field, its bytes, and their number summed up without
 writing them.
 */
module SchemaResponse {
  import opened Wrappers
  import opened Json

  datatype TableSummary = TableSummary(namespace: string, name: string, kind: string)

  datatype TableDetail = TableDetail(
    namespace: string,
    name: string,
    kind: string,
    columns: seq<Column>,
    primaryKey: seq<string>,
    indexes: seq<Index>)

  datatype Column = Column(name: string, dataType: string, nullable: bool, hasDefault: bool)

  datatype Index = Index(name: string, columns: seq<string>, unique: bool, primary: bool)

  datatype Page = Page(limit: int, returned: nat, hasMore: bool, nextCursor: string)

  datatype More = More(options: MoreOption, hints: seq<string>)

  datatype MoreOption = MoreOption(retryWithoutIndexes: bool, useTableMode: bool, suggestedMaxBytes: Option<nat>)

  datatype Output = Output(
    mode: string,
    tables: seq<TableSummary>,
    table: Option<TableDetail>,
    page: Option<Page>,
    truncated: bool,
    returnedBytes: nat,
    more: Option<More>,
    latencyMs: int)

  // ---------- encoded length, summed up ----------
  // Field texts are ASCII literals, so their lengths are their byte lengths.

  function SummaryLen(t: TableSummary): nat {
    |"{\"namespace\":"| + StrLen(t.namespace) + |",\"name\":"| + StrLen(t.name)
    + |",\"kind\":"| + StrLen(t.kind) + |"}"|
  }

  function ColumnLen(c: Column): nat {
    |"{\"name\":"| + StrLen(c.name) + |",\"type\":"| + StrLen(c.dataType)
    + |",\"nullable\":"| + BoolLen(c.nullable)
    + (if c.hasDefault then |",\"has_default\":true"| else 0)
    + |"}"|
  }

  function IndexLen(i: Index): nat {
    |"{\"name\":"| + StrLen(i.name) + |",\"columns\":"| + ArrayLen(i.columns, StrLen)
    + |",\"unique\":"| + BoolLen(i.unique)
    + (if i.primary then |",\"primary\":true"| else 0)
    + |"}"|
  }

  function DetailLen(d: TableDetail): nat {
    |"{\"namespace\":"| + StrLen(d.namespace) + |",\"name\":"| + StrLen(d.name) + |",\"kind\":"| + StrLen(d.kind)
    + |",\"columns\":"| + ArrayLen(d.columns, ColumnLen)
    + (if d.primaryKey == [] then 0 else |",\"primary_key\":"| + ArrayLen(d.primaryKey, StrLen))
    + (if d.indexes == [] then 0 else |",\"indexes\":"| + ArrayLen(d.indexes, IndexLen))
    + |"}"|
  }

  function PageLen(p: Page): nat {
    |"{\"limit\":"| + IntLen(p.limit) + |",\"returned\":"| + Digits(p.returned)
    + |",\"has_more\":"| + BoolLen(p.hasMore)
    + (if p.nextCursor == "" then 0 else |",\"next_cursor\":"| + StrLen(p.nextCursor))
    + |"}"|
  }

  /** Options with a comma each. */
  function OptionFieldsLen(o: MoreOption): nat {
    (if o.retryWithoutIndexes then |"\"retry_without_indexes\":true,"| else 0)
    + (if o.useTableMode then |"\"use_table_mode\":true,"| else 0)
    + (if o.suggestedMaxBytes.Some? then |"\"suggested_max_bytes\":,"| + Digits(o.suggestedMaxBytes.value) else 0)
  }

  function MoreOptionLen(o: MoreOption): nat {
    var fields := OptionFieldsLen(o);
    if fields == 0 then |"{}"| else |"{}"| + fields - |","|
  }

  function MoreLen(m: More): nat {
    |"{\"options\":"| + MoreOptionLen(m.options) + |",\"hints\":"| + ArrayLen(m.hints, StrLen) + |"}"|
  }

  function PayloadLen(o: Output): nat {
    |"{\"mode\":"| + StrLen(o.mode)
    + (if o.tables == [] then 0 else |",\"tables\":"| + ArrayLen(o.tables, SummaryLen))
    + (if o.table == None then 0 else |",\"table\":"| + DetailLen(o.table.value))
    + (if o.page == None then 0 else |",\"page\":"| + PageLen(o.page.value))
  }

  function StateLen(o: Output): nat {
    |",\"truncated\":"| + BoolLen(o.truncated)
    + |",\"returned_bytes\":"|
    + (if o.more == None then 0 else |",\"more\":"| + MoreLen(o.more.value))
    + |",\"latency_ms\":"| + IntLen(o.latencyMs)
    + |"}"|
  }

  /** Everything but the digits of `returned_bytes`. */
  function FrameLen(o: Output): nat {
    PayloadLen(o) + StateLen(o)
  }

  function EncodedLen(o: Output): nat {
    FrameLen(o) + Digits(o.returnedBytes)
  }

  // ---------- the encoding ----------

  function TextJson(s: string): Value {
    Str(s)
  }

  function Skip(present: bool, value: Value): Option<Value> {
    if present then Some(value) else None
  }

  function SummaryJson(t: TableSummary): Value {
    Object(Field("namespace", Some(Str(t.namespace)),
           Field("name", Some(Str(t.name)),
           Field("kind", Some(Str(t.kind)), []))))
  }

  function ColumnJson(c: Column): Value {
    Object(Field("name", Some(Str(c.name)),
           Field("type", Some(Str(c.dataType)),
           Field("nullable", Some(Bool(c.nullable)),
           Field("has_default", Skip(c.hasDefault, Bool(true)), [])))))
  }

  function IndexJson(i: Index): Value {
    Object(Field("name", Some(Str(i.name)),
           Field("columns", Some(Array(Values(i.columns, TextJson))),
           Field("unique", Some(Bool(i.unique)),
           Field("primary", Skip(i.primary, Bool(true)), [])))))
  }

  /** The last two fields of a table's detail. */
  function KeyFields(d: TableDetail): seq<Member> {
    Field("primary_key", Skip(d.primaryKey != [], Array(Values(d.primaryKey, TextJson))),
    Field("indexes", Skip(d.indexes != [], Array(Values(d.indexes, IndexJson))), []))
  }

  function DetailJson(d: TableDetail): Value {
    Object(Field("namespace", Some(Str(d.namespace)),
           Field("name", Some(Str(d.name)),
           Field("kind", Some(Str(d.kind)),
           Field("columns", Some(Array(Values(d.columns, ColumnJson))),
           KeyFields(d))))))
  }

  function PageJson(p: Page): Value {
    Object(Field("limit", Some(Number(IntText(p.limit))),
           Field("returned", Some(Number(Decimal(p.returned))),
           Field("has_more", Some(Bool(p.hasMore)),
           Field("next_cursor", Skip(p.nextCursor != "", Str(p.nextCursor)), [])))))
  }

  function MoreOptionJson(o: MoreOption): Value {
    Object(Field("retry_without_indexes", Skip(o.retryWithoutIndexes, Bool(true)),
           Field("use_table_mode", Skip(o.useTableMode, Bool(true)),
           Field("suggested_max_bytes",
               if o.suggestedMaxBytes.Some? then Some(Number(Decimal(o.suggestedMaxBytes.value))) else None, []))))
  }

  function MoreJson(m: More): Value {
    Object(Field("options", Some(MoreOptionJson(m.options)),
           Field("hints", Some(Array(Values(m.hints, TextJson))), [])))
  }

  function StateFields(o: Output): seq<Member> {
    Field("truncated", Some(Bool(o.truncated)),
    Field("returned_bytes", Some(Number(Decimal(o.returnedBytes))),
    Field("more", if o.more.Some? then Some(MoreJson(o.more.value)) else None,
    Field("latency_ms", Some(Number(IntText(o.latencyMs))), []))))
  }

  function ToJson(o: Output): Value {
    Object(Field("mode", Some(Str(o.mode)),
           Field("tables", Skip(o.tables != [], Array(Values(o.tables, SummaryJson))),
           Field("table", if o.table.Some? then Some(DetailJson(o.table.value)) else None,
           Field("page", if o.page.Some? then Some(PageJson(o.page.value)) else None,
           StateFields(o))))))
  }

  /** The bytes of the response. */
  function Encode(o: Output): seq<Byte> {
    Compact(ToJson(o))
  }

  // ---------- the sums count those bytes ----------

  lemma NameKeys()
    ensures StrLen("namespace") == 11 && StrLen("name") == 6 && StrLen("kind") == 6 && StrLen("columns") == 9
  {
    var a, b, c, d := "namespace", "name", "kind", "columns";
    hide CharsLen;
    PlainLen(a);
    PlainLen(b);
    PlainLen(c);
    PlainLen(d);
  }

  lemma ColumnKeys()
    ensures StrLen("type") == 6 && StrLen("nullable") == 10 && StrLen("has_default") == 13
  {
    var a, b, c := "type", "nullable", "has_default";
    hide CharsLen;
    PlainLen(a);
    PlainLen(b);
    PlainLen(c);
  }

  lemma TableKeys()
    ensures StrLen("unique") == 8 && StrLen("primary") == 9 && StrLen("primary_key") == 13 && StrLen("indexes") == 9
  {
    var a, b, c, d := "unique", "primary", "primary_key", "indexes";
    hide CharsLen;
    PlainLen(a);
    PlainLen(b);
    PlainLen(c);
    PlainLen(d);
  }

  lemma PageKeys()
    ensures StrLen("limit") == 7 && StrLen("returned") == 10 && StrLen("has_more") == 10
            && StrLen("next_cursor") == 13
  {
    var a, b, c, d := "limit", "returned", "has_more", "next_cursor";
    hide CharsLen;
    PlainLen(a);
    PlainLen(b);
    PlainLen(c);
    PlainLen(d);
  }

  lemma OptionKeys()
    ensures StrLen("retry_without_indexes") == 23 && StrLen("use_table_mode") == 16
            && StrLen("suggested_max_bytes") == 21
  {
    var a, b, c := "retry_without_indexes", "use_table_mode", "suggested_max_bytes";
    hide CharsLen;
    PlainLen(a);
    PlainLen(b);
    PlainLen(c);
  }

  lemma MoreKeys()
    ensures StrLen("options") == 9 && StrLen("hints") == 7 && StrLen("more") == 6
  {
    var a, b, c := "options", "hints", "more";
    hide CharsLen;
    PlainLen(a);
    PlainLen(b);
    PlainLen(c);
  }

  lemma OutputKeys()
    ensures StrLen("mode") == 6 && StrLen("tables") == 8 && StrLen("table") == 7 && StrLen("page") == 6
  {
    var a, b, c, d := "mode", "tables", "table", "page";
    hide CharsLen;
    PlainLen(a);
    PlainLen(b);
    PlainLen(c);
    PlainLen(d);
  }

  lemma ReportKeys()
    ensures StrLen("truncated") == 11 && StrLen("returned_bytes") == 16 && StrLen("latency_ms") == 12
  {
    var a, b, c := "truncated", "returned_bytes", "latency_ms";
    hide CharsLen;
    PlainLen(a);
    PlainLen(b);
    PlainLen(c);
  }

  lemma SummaryJsonLen(t: TableSummary)
    ensures Len(SummaryJson(t)) == SummaryLen(t)
  {
    hide StrLen, Field;
    NameKeys();
  }

  lemma ColumnJsonLen(c: Column)
    ensures Len(ColumnJson(c)) == ColumnLen(c)
  {
    hide StrLen, Field;
    NameKeys();
    ColumnKeys();
  }

  lemma TextsJsonLen(texts: seq<string>)
    ensures Len(Array(Values(texts, TextJson))) == ArrayLen(texts, StrLen)
  {
    ValuesLen(texts, TextJson, StrLen);
  }

  lemma IndexJsonLen(i: Index)
    ensures Len(IndexJson(i)) == IndexLen(i)
  {
    hide StrLen, Field, ArrayLen, Values;
    NameKeys();
    TableKeys();
    TextsJsonLen(i.columns);
  }

  lemma DetailJsonLen(d: TableDetail)
    ensures Len(DetailJson(d)) == DetailLen(d)
  {
    hide StrLen, Field, ArrayLen, Values, ColumnJson, IndexJson, TextJson, ColumnLen, IndexLen;
    NameKeys();
    TableKeys();
    forall i | 0 <= i < |d.columns| ensures Len(ColumnJson(d.columns[i])) == ColumnLen(d.columns[i]) {
      ColumnJsonLen(d.columns[i]);
    }
    forall i | 0 <= i < |d.indexes| ensures Len(IndexJson(d.indexes[i])) == IndexLen(d.indexes[i]) {
      IndexJsonLen(d.indexes[i]);
    }
    ValuesLen(d.columns, ColumnJson, ColumnLen);
    ValuesLen(d.indexes, IndexJson, IndexLen);
    TextsJsonLen(d.primaryKey);
  }

  lemma PageJsonLen(p: Page)
    ensures Len(PageJson(p)) == PageLen(p)
  {
    hide StrLen, Field, IntText, IntLen, Decimal, Digits;
    PageKeys();
  }

  lemma MoreOptionJsonLen(o: MoreOption)
    ensures Len(MoreOptionJson(o)) == MoreOptionLen(o)
  {
    hide StrLen, Field, Decimal, Digits;
    OptionKeys();
  }

  lemma MoreJsonLen(m: More)
    ensures Len(MoreJson(m)) == MoreLen(m)
  {
    hide StrLen, Field, ArrayLen, Values, MoreOptionJson, MoreOptionLen, TextJson;
    MoreKeys();
    MoreOptionJsonLen(m.options);
    TextsJsonLen(m.hints);
  }

  lemma StateFieldsLen(o: Output)
    ensures MembersLen(StateFields(o)) + |"}"| == StateLen(o) + Digits(o.returnedBytes)
  {
    hide StrLen, Field, MoreJson, MoreLen, IntText, Decimal, IntLen, Digits;
    ReportKeys();
    MoreKeys();
    if o.more.Some? {
      MoreJsonLen(o.more.value);
    }
  }

  /** The response is as long as the sums say: every byte of every field, present or left out. */
  lemma EncodeLen(o: Output)
    ensures |Encode(o)| == EncodedLen(o)
  {
    hide StrLen, Field, ArrayLen, Values, SummaryJson, DetailJson, PageJson, StateFields;
    hide SummaryLen, DetailLen, PageLen, StateLen, Digits;
    OutputKeys();
    StateFieldsLen(o);
    forall i | 0 <= i < |o.tables| ensures Len(SummaryJson(o.tables[i])) == SummaryLen(o.tables[i]) {
      SummaryJsonLen(o.tables[i]);
    }
    ValuesLen(o.tables, SummaryJson, SummaryLen);
    if o.table.Some? {
      DetailJsonLen(o.table.value);
    }
    if o.page.Some? {
      PageJsonLen(o.page.value);
    }
  }

  // ---------- the encoding keeps every field ----------

  lemma SummaryJsonInjective(a: TableSummary, b: TableSummary)
    requires SummaryJson(a) == SummaryJson(b)
    ensures a == b
  {
    hide Field, Without, StrLen, Len, MembersLen;
    NothingWithout();
    var a2, b2 := Field("kind", Some(Str(a.kind)), []), Field("kind", Some(Str(b.kind)), []);
    FieldWithout("kind", Some(Str(a.kind)), [], "namespace");
    FieldWithout("kind", Some(Str(a.kind)), [], "name");
    FieldWithout("kind", Some(Str(b.kind)), [], "namespace");
    FieldWithout("kind", Some(Str(b.kind)), [], "name");
    TwoInjective("namespace", "name", Some(Str(a.namespace)), Some(Str(a.name)), a2,
                 Some(Str(b.namespace)), Some(Str(b.name)), b2);
    FieldInjective("kind", Some(Str(a.kind)), [], Some(Str(b.kind)), []);
  }

  lemma ColumnJsonInjective(a: Column, b: Column)
    requires ColumnJson(a) == ColumnJson(b)
    ensures a == b
  {
    hide Field, Without, StrLen, Len, MembersLen;
    NothingWithout();
    FourInjective("name", "type", "nullable", "has_default",
                  Some(Str(a.name)), Some(Str(a.dataType)), Some(Bool(a.nullable)), Skip(a.hasDefault, Bool(true)), [],
                  Some(Str(b.name)), Some(Str(b.dataType)), Some(Bool(b.nullable)), Skip(b.hasDefault, Bool(true)), []);
  }

  lemma TextsInjective(a: seq<string>, b: seq<string>)
    requires Values(a, TextJson) == Values(b, TextJson)
    ensures a == b
  {
    assert forall i | 0 <= i < |a| :: Str(a[i]) == Values(a, TextJson)[i] == Values(b, TextJson)[i];
  }

  lemma IndexJsonInjective(a: Index, b: Index)
    requires IndexJson(a) == IndexJson(b)
    ensures a == b
  {
    hide Field, Without, StrLen, Len, MembersLen, Values;
    NothingWithout();
    var as_, bs := Values(a.columns, TextJson), Values(b.columns, TextJson);
    FourInjective("name", "columns", "unique", "primary",
                  Some(Str(a.name)), Some(Array(as_)), Some(Bool(a.unique)), Skip(a.primary, Bool(true)), [],
                  Some(Str(b.name)), Some(Array(bs)), Some(Bool(b.unique)), Skip(b.primary, Bool(true)), []);
    TextsInjective(a.columns, b.columns);
  }

  lemma ColumnsInjective(a: seq<Column>, b: seq<Column>)
    requires Values(a, ColumnJson) == Values(b, ColumnJson)
    ensures a == b
  {
    hide ColumnJson, Values;
    forall i | 0 <= i < |a| ensures a[i] == b[i] {
      assert ColumnJson(a[i]) == Values(a, ColumnJson)[i] == ColumnJson(b[i]);
      ColumnJsonInjective(a[i], b[i]);
    }
  }

  lemma IndexesInjective(a: seq<Index>, b: seq<Index>)
    requires Values(a, IndexJson) == Values(b, IndexJson)
    ensures a == b
  {
    hide IndexJson, Values;
    forall i | 0 <= i < |a| ensures a[i] == b[i] {
      assert IndexJson(a[i]) == Values(a, IndexJson)[i] == IndexJson(b[i]);
      IndexJsonInjective(a[i], b[i]);
    }
  }

  lemma SummariesInjective(a: seq<TableSummary>, b: seq<TableSummary>)
    requires Values(a, SummaryJson) == Values(b, SummaryJson)
    ensures a == b
  {
    hide SummaryJson, Values;
    forall i | 0 <= i < |a| ensures a[i] == b[i] {
      assert SummaryJson(a[i]) == Values(a, SummaryJson)[i] == SummaryJson(b[i]);
      SummaryJsonInjective(a[i], b[i]);
    }
  }

  lemma KeyFieldsInjective(a: TableDetail, b: TableDetail)
    requires KeyFields(a) == KeyFields(b)
    ensures a.primaryKey == b.primaryKey && a.indexes == b.indexes
  {
    hide Field, Without, StrLen, Len, MembersLen, Values, TextJson, IndexJson;
    NothingWithout();
    var ap, bp := Array(Values(a.primaryKey, TextJson)), Array(Values(b.primaryKey, TextJson));
    var ai, bi := Array(Values(a.indexes, IndexJson)), Array(Values(b.indexes, IndexJson));
    TwoInjective("primary_key", "indexes", Skip(a.primaryKey != [], ap), Skip(a.indexes != [], ai), [],
                 Skip(b.primaryKey != [], bp), Skip(b.indexes != [], bi), []);
    if a.primaryKey != [] {
      TextsInjective(a.primaryKey, b.primaryKey);
    }
    if a.indexes != [] {
      IndexesInjective(a.indexes, b.indexes);
    }
  }

  lemma KeyFieldsWithout(d: TableDetail, key: string)
    requires key != "primary_key" && key != "indexes"
    ensures Without(KeyFields(d), key)
  {
    hide Field, Without, StrLen, Len, MembersLen, Values, TextJson, IndexJson;
    NothingWithout();
    var indexes := Skip(d.indexes != [], Array(Values(d.indexes, IndexJson)));
    FieldWithout("indexes", indexes, [], key);
    FieldWithout("primary_key", Skip(d.primaryKey != [], Array(Values(d.primaryKey, TextJson))),
               Field("indexes", indexes, []), key);
  }

  lemma DetailJsonInjective(a: TableDetail, b: TableDetail)
    requires DetailJson(a) == DetailJson(b)
    ensures a == b
  {
    hide Field, Without, StrLen, Len, MembersLen, Values, ColumnJson, KeyFields;
    forall d <- {a, b}, key <- {"namespace", "name", "kind", "columns"} ensures Without(KeyFields(d), key) {
      KeyFieldsWithout(d, key);
    }
    var ac, bc := Array(Values(a.columns, ColumnJson)), Array(Values(b.columns, ColumnJson));
    FourInjective("namespace", "name", "kind", "columns",
                  Some(Str(a.namespace)), Some(Str(a.name)), Some(Str(a.kind)), Some(ac), KeyFields(a),
                  Some(Str(b.namespace)), Some(Str(b.name)), Some(Str(b.kind)), Some(bc), KeyFields(b));
    ColumnsInjective(a.columns, b.columns);
    KeyFieldsInjective(a, b);
  }

  lemma PageJsonInjective(a: Page, b: Page)
    requires PageJson(a) == PageJson(b)
    ensures a == b
  {
    hide Field, Without, StrLen, Len, MembersLen, IntText, Decimal;
    NothingWithout();
    FourInjective("limit", "returned", "has_more", "next_cursor",
                  Some(Number(IntText(a.limit))), Some(Number(Decimal(a.returned))), Some(Bool(a.hasMore)),
                  Skip(a.nextCursor != "", Str(a.nextCursor)), [],
                  Some(Number(IntText(b.limit))), Some(Number(Decimal(b.returned))), Some(Bool(b.hasMore)),
                  Skip(b.nextCursor != "", Str(b.nextCursor)), []);
    IntTextInjective(a.limit, b.limit);
    DecimalIs(a.returned);
    DecimalIs(b.returned);
  }

  lemma MoreOptionJsonInjective(a: MoreOption, b: MoreOption)
    requires MoreOptionJson(a) == MoreOptionJson(b)
    ensures a == b
  {
    hide Field, Without, StrLen, Len, MembersLen, Decimal;
    NothingWithout();
    var key, last := "use_table_mode", "suggested_max_bytes";
    var an := if a.suggestedMaxBytes.Some? then Some(Number(Decimal(a.suggestedMaxBytes.value))) else None;
    var bn := if b.suggestedMaxBytes.Some? then Some(Number(Decimal(b.suggestedMaxBytes.value))) else None;
    var at, bt := Skip(a.useTableMode, Bool(true)), Skip(b.useTableMode, Bool(true));
    var first := "retry_without_indexes";
    FieldWithout(last, an, [], first);
    FieldWithout(last, bn, [], first);
    FieldWithout(last, an, [], key);
    FieldWithout(last, bn, [], key);
    TwoInjective(first, key, Skip(a.retryWithoutIndexes, Bool(true)), at, Field(last, an, []),
                 Skip(b.retryWithoutIndexes, Bool(true)), bt, Field(last, bn, []));
    FieldInjective(last, an, [], bn, []);
    if a.suggestedMaxBytes.Some? && b.suggestedMaxBytes.Some? {
      DecimalIs(a.suggestedMaxBytes.value);
      DecimalIs(b.suggestedMaxBytes.value);
    }
  }

  lemma MoreJsonInjective(a: More, b: More)
    requires MoreJson(a) == MoreJson(b)
    ensures a == b
  {
    hide Field, Without, StrLen, Len, MembersLen, Values, MoreOptionJson, TextJson;
    NothingWithout();
    var as_, bs := Array(Values(a.hints, TextJson)), Array(Values(b.hints, TextJson));
    TwoInjective("options", "hints", Some(MoreOptionJson(a.options)), Some(as_), [],
                 Some(MoreOptionJson(b.options)), Some(bs), []);
    MoreOptionJsonInjective(a.options, b.options);
    TextsInjective(a.hints, b.hints);
  }

  lemma StateFieldsInjective(a: Output, b: Output)
    requires StateFields(a) == StateFields(b)
    ensures a.truncated == b.truncated && a.returnedBytes == b.returnedBytes && a.more == b.more
    ensures a.latencyMs == b.latencyMs
  {
    hide Field, Without, StrLen, Len, MembersLen, IntText, Decimal, MoreJson;
    NothingWithout();
    FourInjective("truncated", "returned_bytes", "more", "latency_ms",
                  Some(Bool(a.truncated)), Some(Number(Decimal(a.returnedBytes))),
                  if a.more.Some? then Some(MoreJson(a.more.value)) else None,
                  Some(Number(IntText(a.latencyMs))), [],
                  Some(Bool(b.truncated)), Some(Number(Decimal(b.returnedBytes))),
                  if b.more.Some? then Some(MoreJson(b.more.value)) else None,
                  Some(Number(IntText(b.latencyMs))), []);
    DecimalIs(a.returnedBytes);
    DecimalIs(b.returnedBytes);
    IntTextInjective(a.latencyMs, b.latencyMs);
    if a.more.Some? && b.more.Some? {
      MoreJsonInjective(a.more.value, b.more.value);
    }
  }

  lemma StateFieldsWithout(o: Output, key: string)
    requires key != "truncated" && key != "returned_bytes" && key != "more" && key != "latency_ms"
    ensures Without(StateFields(o), key)
  {
    hide Field, Without, StrLen, Len, MembersLen, IntText, Decimal, MoreJson;
    NothingWithout();
    FourWithout(key, "truncated", "returned_bytes", "more", "latency_ms",
                Some(Bool(o.truncated)), Some(Number(Decimal(o.returnedBytes))),
                if o.more.Some? then Some(MoreJson(o.more.value)) else None, Some(Number(IntText(o.latencyMs))), []);
  }

  /** Two responses that encode to the same tree are the same response: no field is lost. */
  lemma ToJsonInjective(a: Output, b: Output)
    requires ToJson(a) == ToJson(b)
    ensures a == b
  {
    hide Field, Without, StrLen, Len, MembersLen, Values, SummaryJson, DetailJson, PageJson, StateFields;
    forall o <- {a, b}, key <- {"mode", "tables", "table", "page"} ensures Without(StateFields(o), key) {
      StateFieldsWithout(o, key);
    }
    FourInjective("mode", "tables", "table", "page",
                  Some(Str(a.mode)), Skip(a.tables != [], Array(Values(a.tables, SummaryJson))),
                  if a.table.Some? then Some(DetailJson(a.table.value)) else None,
                  if a.page.Some? then Some(PageJson(a.page.value)) else None, StateFields(a),
                  Some(Str(b.mode)), Skip(b.tables != [], Array(Values(b.tables, SummaryJson))),
                  if b.table.Some? then Some(DetailJson(b.table.value)) else None,
                  if b.page.Some? then Some(PageJson(b.page.value)) else None, StateFields(b));
    StateFieldsInjective(a, b);
    if a.tables != [] {
      SummariesInjective(a.tables, b.tables);
    }
    if a.table.Some? && b.table.Some? {
      DetailJsonInjective(a.table.value, b.table.value);
    }
    if a.page.Some? && b.page.Some? {
      PageJsonInjective(a.page.value, b.page.value);
    }
  }
}
