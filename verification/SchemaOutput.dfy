/**
 The sql_schema response and its byte budget (backend/crates/service/src/sql_schema/output.rs).

 The response states its own encoded length, so every measurement depends on the value it
 replaces. Class SqlSchemaOutput trims its fields in place; the functions on `Output` say
 what each method leaves, and the lemmas what that means.
 */
module SchemaOutput {
  import opened Wrappers
  import opened Json
  import opened SchemaResponse

  const MAX_MAX_BYTES: nat := 1024 * 1024
  const MODE_TABLES := "tables"
  const MODE_TABLE := "table"

  function JoinCursor(namespace: string, table: string): string {
    namespace + "." + table
  }

  // ---------- what the trimming loops compute ----------

  function Measure(o: Output): Output {
    o.(returnedBytes := EncodedLen(o))
  }

  predicate DetailBare(o: Output) {
    o.table.Some? ==> o.table.value.columns == [] && o.table.value.primaryKey == [] && o.table.value.indexes == []
  }

  function DropFromDetail(d: TableDetail): TableDetail
    requires d.columns != [] || d.primaryKey != [] || d.indexes != []
  {
    if d.indexes != [] then d.(indexes := [])
    else if d.primaryKey != [] then d.(primaryKey := [])
    else d.(columns := d.columns[..|d.columns| - 1])
  }

  function DetailSize(o: Output): nat {
    if o.table == None then 0
    else |o.table.value.columns| + |o.table.value.primaryKey| + |o.table.value.indexes|
  }

  function TrimDetail(o: Output, maxBytes: nat): (r: Output)
    ensures r.tables == o.tables
    decreases DetailSize(o)
  {
    if o.returnedBytes <= maxBytes || DetailBare(o) then o
    else TrimDetail(Measure(o.(table := Some(DropFromDetail(o.table.value)))), maxBytes)
  }

  function LastCursor(tables: seq<TableSummary>): string {
    if tables == [] then ""
    else var last := tables[|tables| - 1]; JoinCursor(last.namespace, last.name)
  }

  function DropLastTable(o: Output): Output
    requires o.tables != []
  {
    var tables := o.tables[..|o.tables| - 1];
    o.(tables := tables,
       page := if o.page == None then None
               else Some(o.page.value.(hasMore := true, returned := |tables|, nextCursor := LastCursor(tables))))
  }

  function TrimTables(o: Output, maxBytes: nat): Output
    decreases |o.tables|
  {
    if o.returnedBytes <= maxBytes || o.tables == [] then o
    else TrimTables(Measure(DropLastTable(o)), maxBytes)
  }

  function TrimPayload(o: Output, maxBytes: nat): Output {
    TrimTables(TrimDetail(o, maxBytes), maxBytes)
  }

  const OVER_BUDGET := "schema output exceeded max_bytes;"
  const RETRY_ONE := " retry mode=table for one table"
  const RETRY_MORE := " or increase max_bytes"
  const IF_ALLOWED := " if policy allows it"
  const TRIM_ORDER := "indexes are omitted first"
  const TRIM_WHEN := " when table detail is too large"
  const HINTS := [OVER_BUDGET + RETRY_ONE + RETRY_MORE + IF_ALLOWED, TRIM_ORDER + TRIM_WHEN]

  function Guidance(o: Output, maxBytes: nat): More {
    More(MoreOption(true, o.mode == MODE_TABLES,
                    Some(if maxBytes * 2 <= MAX_MAX_BYTES then maxBytes * 2 else MAX_MAX_BYTES)),
         HINTS)
  }

  function WithGuidance(o: Output, maxBytes: nat): Output {
    if maxBytes < MAX_MAX_BYTES then o.(more := Some(Guidance(o, maxBytes))) else o
  }

  /** The response trimmed to its budget. */
  function FirstTrim(o: Output, maxBytes: nat): Output {
    TrimPayload(Measure(o).(truncated := true), maxBytes)
  }

  /** That with the guidance, measured. */
  function Guided(o: Output, maxBytes: nat): Output {
    Measure(WithGuidance(FirstTrim(o, maxBytes), maxBytes))
  }

  /** That with the guidance taken off again, and trimmed further. */
  function SecondTrim(o: Output, maxBytes: nat): Output {
    TrimPayload(Guided(o, maxBytes).(more := None), maxBytes)
  }

  function Finalize(o: Output, maxBytes: nat): Output {
    if EncodedLen(o) <= maxBytes then Measure(o)
    else if Guided(o, maxBytes).returnedBytes <= maxBytes then Guided(o, maxBytes)
    else Measure(SecondTrim(o, maxBytes))
  }

  // ---------- the response object ----------

  class SqlSchemaOutput {
    var mode: string
    var tables: seq<TableSummary>
    var table: Option<TableDetail>
    var page: Option<Page>
    var truncated: bool
    var returnedBytes: nat
    var more: Option<More>
    var latencyMs: int

    function Value(): Output
      reads this
    {
      Output(mode, tables, table, page, truncated, returnedBytes, more, latencyMs)
    }

    constructor (o: Output)
      ensures Value() == o
    {
      mode, tables, table, page := o.mode, o.tables, o.table, o.page;
      truncated, returnedBytes, more, latencyMs := o.truncated, o.returnedBytes, o.more, o.latencyMs;
    }

    /** `encoded_len`: serialize and count. */
    method SerializedLen() returns (n: nat)
      ensures n == |Encode(Value())| == EncodedLen(Value())
    {
      EncodeLen(Value());
      n := |Encode(Value())|;
    }

    method FinalizeOutput(maxBytes: nat)
      modifies this
      ensures Value() == Finalize(old(Value()), maxBytes)
    {
      hide EncodedLen, Encode;
      returnedBytes := SerializedLen();
      if returnedBytes <= maxBytes {
        return;
      }
      truncated := true;
      TrimSchemaPayload(maxBytes);
      if maxBytes < MAX_MAX_BYTES {
        var suggested := if maxBytes * 2 <= MAX_MAX_BYTES then maxBytes * 2 else MAX_MAX_BYTES;
        more := Some(More(MoreOption(true, mode == MODE_TABLES, Some(suggested)), HINTS));
      }
      returnedBytes := SerializedLen();
      if returnedBytes > maxBytes {
        more := None;
        TrimSchemaPayload(maxBytes);
        returnedBytes := SerializedLen();
      }
    }

    method TrimSchemaPayload(maxBytes: nat)
      modifies this
      ensures Value() == TrimPayload(old(Value()), maxBytes)
    {
      TrimTableDetail(maxBytes);
      TrimTableList(maxBytes);
    }

    method TrimTableDetail(maxBytes: nat)
      modifies this
      ensures Value() == TrimDetail(old(Value()), maxBytes)
    {
      hide EncodedLen, Encode;
      while returnedBytes > maxBytes
        invariant TrimDetail(Value(), maxBytes) == TrimDetail(old(Value()), maxBytes)
        decreases DetailSize(Value())
      {
        if table == None {
          return;
        }
        var detail := table.value;
        if detail.indexes != [] {
          table := Some(detail.(indexes := []));
        } else if detail.primaryKey != [] {
          table := Some(detail.(primaryKey := []));
        } else if detail.columns != [] {
          table := Some(detail.(columns := detail.columns[..|detail.columns| - 1]));
        } else {
          return;
        }
        returnedBytes := SerializedLen();
      }
    }

    method TrimTableList(maxBytes: nat)
      modifies this
      ensures Value() == TrimTables(old(Value()), maxBytes)
    {
      hide EncodedLen, Encode, LastCursor;
      while returnedBytes > maxBytes && tables != []
        invariant TrimTables(Value(), maxBytes) == TrimTables(old(Value()), maxBytes)
        decreases |tables|
      {
        tables := tables[..|tables| - 1];
        if page.Some? {
          page := Some(page.value.(hasMore := true, returned := |tables|, nextCursor := LastCursor(tables)));
        }
        returnedBytes := SerializedLen();
      }
    }
  }

  // ---------- the budget ----------

  ghost predicate NothingToTrim(o: Output) {
    o.tables == [] && DetailBare(o)
  }

  lemma {:induction false} TrimDetailStops(o: Output, maxBytes: nat)
    ensures var r := TrimDetail(o, maxBytes);
            && (r.returnedBytes <= maxBytes || DetailBare(r))
            && (r == o || (o.returnedBytes > maxBytes
                           && exists x: Output :: x.returnedBytes > maxBytes && r == Measure(x)))
    decreases DetailSize(o)
  {
    if o.returnedBytes > maxBytes && !DetailBare(o) {
      var x := o.(table := Some(DropFromDetail(o.table.value)));
      assert x.returnedBytes > maxBytes;
      TrimDetailStops(Measure(x), maxBytes);
    }
  }

  lemma {:induction false} TrimTablesStops(o: Output, maxBytes: nat)
    ensures var r := TrimTables(o, maxBytes);
            && r.table == o.table
            && (r.returnedBytes <= maxBytes || r.tables == [])
            && (r == o || (o.returnedBytes > maxBytes
                           && exists x: Output :: x.returnedBytes > maxBytes && r == Measure(x)))
    decreases |o.tables|
  {
    if o.returnedBytes > maxBytes && o.tables != [] {
      var x := DropLastTable(o);
      assert x.returnedBytes > maxBytes;
      TrimTablesStops(Measure(x), maxBytes);
    }
  }

  /** Trimming stops within the budget, measured against a longer value, or with nothing left. */
  lemma TrimPayloadStops(o: Output, maxBytes: nat)
    ensures var r := TrimPayload(o, maxBytes);
            && (r.returnedBytes <= maxBytes || NothingToTrim(r))
            && (r == o || (o.returnedBytes > maxBytes
                           && exists x: Output :: x.returnedBytes > maxBytes && r == Measure(x)))
  {
    TrimDetailStops(o, maxBytes);
    TrimTablesStops(TrimDetail(o, maxBytes), maxBytes);
  }

  /** Only the digits depend on the report. */
  lemma FrameIgnoresReport(o: Output, n: nat)
    ensures FrameLen(o.(returnedBytes := n)) == FrameLen(o)
  {
  }

  /** A measurement misses its own digits: the true length differs from the report by the
      change in digits the report itself makes. */
  lemma MeasureError(o: Output)
    ensures Measure(o).returnedBytes == |Encode(o)| == EncodedLen(o)
    ensures |Encode(Measure(o))| == |Encode(o)| + Digits(|Encode(o)|) - Digits(o.returnedBytes)
    ensures EncodedLen(Measure(o)) == EncodedLen(o) + Digits(EncodedLen(o)) - Digits(o.returnedBytes)
  {
    hide FrameLen, Encode;
    EncodeLen(o);
    EncodeLen(Measure(o));
    FrameIgnoresReport(o, EncodedLen(o));
  }

  /** The report is within the budget, or nothing is left to trim. */
  lemma ReportWithinBudget(o: Output, maxBytes: nat)
    ensures var r := Finalize(o, maxBytes);
            r.returnedBytes <= maxBytes || NothingToTrim(r)
  {
    hide FrameLen;
    var measured := Measure(o);
    if measured.returnedBytes > maxBytes {
      var guided := Measure(WithGuidance(TrimPayload(measured.(truncated := true), maxBytes), maxBytes));
      if guided.returnedBytes > maxBytes {
        TrimPayloadStops(guided.(more := None), maxBytes);
        var last := TrimPayload(guided.(more := None), maxBytes);
        if last.returnedBytes <= maxBytes {
          ShrinkingReport(last, guided.(more := None), maxBytes);
        }
      }
    }
  }

  /** Measuring again after a trim that ended within the budget never raises the report. */
  lemma ShrinkingReport(r: Output, o: Output, maxBytes: nat)
    requires r == TrimPayload(o, maxBytes) && r.returnedBytes <= maxBytes < o.returnedBytes
    ensures Measure(r).returnedBytes <= r.returnedBytes
  {
    hide FrameLen;
    TrimPayloadStops(o, maxBytes);
    var x: Output :| x.returnedBytes > maxBytes && r == Measure(x);
    FrameIgnoresReport(x, EncodedLen(x));
    DigitsMonotone(r.returnedBytes, x.returnedBytes);
  }

  /** An untrimmed response under-reports by exactly the digits beyond the first of its report. */
  lemma UntrimmedReport(o: Output, maxBytes: nat)
    requires o.returnedBytes == 0 && !o.truncated && !Finalize(o, maxBytes).truncated
    ensures var r := Finalize(o, maxBytes);
            && r == Measure(o)
            && r.returnedBytes <= maxBytes
            && |Encode(r)| == r.returnedBytes + Digits(r.returnedBytes) - 1
  {
    hide Encode;
    FinalizeKeepsTruncated(o, maxBytes);
    MeasureError(o);
  }

  lemma {:induction false} TrimKeepsTruncated(o: Output, maxBytes: nat)
    ensures TrimDetail(o, maxBytes).truncated == o.truncated
    ensures TrimTables(o, maxBytes).truncated == o.truncated
    ensures TrimDetail(o, maxBytes).more == o.more && TrimDetail(o, maxBytes).mode == o.mode
    ensures TrimTables(o, maxBytes).more == o.more && TrimTables(o, maxBytes).mode == o.mode
    ensures TrimDetail(o, maxBytes).latencyMs == o.latencyMs && TrimDetail(o, maxBytes).page == o.page
    ensures TrimTables(o, maxBytes).latencyMs == o.latencyMs && TrimTables(o, maxBytes).table == o.table
    decreases DetailSize(o) + |o.tables|
  {
    if o.returnedBytes > maxBytes && !DetailBare(o) {
      TrimKeepsTruncated(Measure(o.(table := Some(DropFromDetail(o.table.value)))), maxBytes);
    }
    if o.returnedBytes > maxBytes && o.tables != [] {
      TrimKeepsTruncated(Measure(DropLastTable(o)), maxBytes);
    }
  }

  lemma FinalizeKeepsTruncated(o: Output, maxBytes: nat)
    ensures EncodedLen(o) > maxBytes ==> Finalize(o, maxBytes).truncated
  {
    if EncodedLen(o) > maxBytes {
      var start := Measure(o).(truncated := true);
      TrimKeepsTruncated(start, maxBytes);
      TrimKeepsTruncated(TrimDetail(start, maxBytes), maxBytes);
      var guided := Measure(WithGuidance(TrimPayload(start, maxBytes), maxBytes)).(more := None);
      TrimKeepsTruncated(guided, maxBytes);
      TrimKeepsTruncated(TrimDetail(guided, maxBytes), maxBytes);
    }
  }

  /** When trimming ends within the budget and no guidance is attached, the response really is
      within the report, and the report within the budget. */
  lemma TrimmedReport(o: Output, maxBytes: nat)
    requires |Encode(o)| > maxBytes
    requires Finalize(o, maxBytes).more == None && Finalize(o, maxBytes).returnedBytes <= maxBytes
    ensures var r := Finalize(o, maxBytes); |Encode(r)| <= r.returnedBytes <= maxBytes
  {
    hide FrameLen, Encode;
    EncodeLen(o);
    EncodeLen(Finalize(o, maxBytes));
    var start := Measure(o).(truncated := true);
    var trimmed := TrimPayload(start, maxBytes);
    var guided := Measure(WithGuidance(trimmed, maxBytes));
    TrimPayloadStops(start, maxBytes);
    var last := if guided.returnedBytes <= maxBytes then trimmed else TrimPayload(guided.(more := None), maxBytes);
    if guided.returnedBytes > maxBytes {
      TrimPayloadStops(guided.(more := None), maxBytes);
    }
    var r := Measure(last);
    if last.returnedBytes <= maxBytes {
      ShrinkingReport(last, if guided.returnedBytes <= maxBytes then start else guided.(more := None), maxBytes);
    }
    FrameIgnoresReport(last, EncodedLen(last));
    DigitsMonotone(r.returnedBytes, last.returnedBytes);
  }

  // ---------- the shape trimming keeps ----------

  /** Columns and tables survive as prefixes, and in the order indexes, primary key, columns. */
  ghost predicate DetailShape(d: TableDetail, r: TableDetail) {
    && r.namespace == d.namespace && r.name == d.name && r.kind == d.kind
    && r.columns <= d.columns
    && (r.primaryKey == d.primaryKey || r.primaryKey == [])
    && (r.indexes == d.indexes || r.indexes == [])
    && (r.primaryKey != d.primaryKey ==> r.indexes == [])
    && (r.columns != d.columns ==> r.indexes == [] && r.primaryKey == [])
  }

  ghost predicate TablesShape(o: Output, r: Output) {
    && r.tables <= o.tables
    && (|r.tables| == |o.tables| ==> r.page == o.page)
    && (|r.tables| < |o.tables| ==>
          r.page == if o.page == None then None
                    else Some(o.page.value.(
                                hasMore := true, returned := |r.tables|, nextCursor := LastCursor(r.tables))))
  }

  ghost predicate Shape(o: Output, r: Output) {
    && r.mode == o.mode && r.latencyMs == o.latencyMs
    && TablesShape(o, r)
    && (o.table == None <==> r.table == None)
    && (o.table.Some? ==> DetailShape(o.table.value, r.table.value))
  }

  lemma {:induction false} TrimDetailShape(o: Output, maxBytes: nat)
    ensures Shape(o, TrimDetail(o, maxBytes))
    decreases DetailSize(o)
  {
    hide EncodedLen;
    TrimKeepsTruncated(o, maxBytes);
    if o.returnedBytes > maxBytes && !DetailBare(o) {
      TrimDetailShape(Measure(o.(table := Some(DropFromDetail(o.table.value)))), maxBytes);
    }
  }

  lemma {:induction false} TrimTablesShape(o: Output, maxBytes: nat)
    ensures Shape(o, TrimTables(o, maxBytes))
    decreases |o.tables|
  {
    hide EncodedLen;
    if o.returnedBytes > maxBytes && o.tables != [] {
      TrimTablesShape(Measure(DropLastTable(o)), maxBytes);
    }
  }

  lemma TrimPayloadShape(o: Output, maxBytes: nat)
    ensures Shape(o, TrimPayload(o, maxBytes))
  {
    hide EncodedLen;
    TrimDetailShape(o, maxBytes);
    TrimTablesShape(TrimDetail(o, maxBytes), maxBytes);
    TrimKeepsTruncated(o, maxBytes);
  }

  /** The finalized response is the original cut down: tables and columns are prefixes; columns go
      only after indexes and primary key; whenever a table goes, the page counts the tables kept,
      says there is more, and resumes after the last kept table. */
  lemma FinalizeShape(o: Output, maxBytes: nat)
    ensures Shape(o, Finalize(o, maxBytes))
  {
    hide EncodedLen, TrimPayload;
    var start := Measure(o).(truncated := true);
    var trimmed := TrimPayload(start, maxBytes);
    var guided := Measure(WithGuidance(trimmed, maxBytes)).(more := None);
    TrimPayloadShape(start, maxBytes);
    TrimPayloadShape(guided, maxBytes);
  }

  // ---------- guidance, and pages of ordinary tables ----------

  lemma HintsArePlain()
    ensures forall h <- HINTS :: Plain(h)
  {
    RetryHintIsPlain();
    BudgetHintIsPlain();
    OrderHintIsPlain();
    hide Plain;
    PlainConcat(OVER_BUDGET, RETRY_ONE);
    PlainConcat(OVER_BUDGET + RETRY_ONE, RETRY_MORE);
    PlainConcat(OVER_BUDGET + RETRY_ONE + RETRY_MORE, IF_ALLOWED);
    PlainConcat(TRIM_ORDER, TRIM_WHEN);
  }

  lemma RetryHintIsPlain()
    ensures Plain(OVER_BUDGET) && Plain(RETRY_ONE)
  {
  }

  lemma BudgetHintIsPlain()
    ensures Plain(RETRY_MORE) && Plain(IF_ALLOWED)
  {
  }

  lemma OrderHintIsPlain()
    ensures Plain(TRIM_ORDER) && Plain(TRIM_WHEN)
  {
  }

  lemma PlainConcat(a: string, b: string)
    requires Plain(a) && Plain(b)
    ensures Plain(a + b)
  {
  }

  lemma GuidanceLen(m: More, maxBytes: nat)
    requires m.hints == HINTS && m.options.suggestedMaxBytes.Some? && m.options.suggestedMaxBytes.value <= MAX_MAX_BYTES
    ensures |",\"more\":"| + MoreLen(m) <= 285
  {
    hide CharsLen;
    HintsArePlain();
    PlainLen(HINTS[0]);
    PlainLen(HINTS[1]);
    assert m.hints[1..] == [HINTS[1]];
    assert m.hints[1..][1..] == [];
    assert |HINTS[0]| == 106 && |HINTS[1]| == 56;
    assert StrLen(HINTS[0]) == 108 && StrLen(HINTS[1]) == 58;
    assert ElementsLen(m.hints[1..], StrLen) == StrLen(HINTS[1]) + 1 + ElementsLen(m.hints[1..][1..], StrLen);
    assert ElementsLen(m.hints, StrLen) == StrLen(HINTS[0]) + 1 + ElementsLen(m.hints[1..], StrLen);
    DigitsMonotone(m.options.suggestedMaxBytes.value, 9_999_999);
    assert Digits(9_999_999) == 7;
    assert OptionFieldsLen(m.options) <= 29 + 22 + 23 + 7;
  }

  lemma FrameAtLeast(o: Output)
    ensures FrameLen(o) >= 60
  {
  }

  lemma GuidedFrame(o: Output, maxBytes: nat)
    requires o.more == None
    ensures FrameLen(WithGuidance(o, maxBytes)) <= FrameLen(o) + 285
  {
    GuidanceLen(Guidance(o, maxBytes), maxBytes);
  }

  /** What TrimPayload leaves of an over-budget response weighs no more than its report. */
  lemma TrimmedWeight(o: Output, maxBytes: nat)
    requires EncodedLen(o) > maxBytes
    ensures 60 <= FrameLen(FirstTrim(o, maxBytes)) <= FirstTrim(o, maxBytes).returnedBytes
  {
    var start := Measure(o).(truncated := true);
    var trimmed := TrimPayload(start, maxBytes);
    FrameAtLeast(trimmed);
    if trimmed == start {
      TruncatedFrame(o);
    } else {
      TrimmedIsMeasured(start, trimmed, maxBytes);
    }
  }

  lemma TruncatedFrame(o: Output)
    ensures FrameLen(Measure(o).(truncated := true)) <= Measure(o).returnedBytes
  {
  }

  lemma TrimmedIsMeasured(o: Output, r: Output, maxBytes: nat)
    requires r == TrimPayload(o, maxBytes) != o
    ensures FrameLen(r) <= r.returnedBytes
  {
    hide FrameLen;
    TrimPayloadStops(o, maxBytes);
    var x: Output :| x.returnedBytes > maxBytes && r == Measure(x);
    FrameIgnoresReport(x, EncodedLen(x));
  }

  lemma GuidanceIsLast(o: Output, maxBytes: nat)
    requires o.more == None && EncodedLen(o) > maxBytes && Finalize(o, maxBytes).more.Some?
    ensures FirstTrim(o, maxBytes).more == None
    ensures Finalize(o, maxBytes) == Guided(o, maxBytes) && Guided(o, maxBytes).returnedBytes <= maxBytes
  {
    hide FrameLen;
    var start := Measure(o).(truncated := true);
    TrimKeepsTruncated(start, maxBytes);
    TrimKeepsTruncated(TrimDetail(start, maxBytes), maxBytes);
    var again := Guided(o, maxBytes).(more := None);
    TrimKeepsTruncated(again, maxBytes);
    TrimKeepsTruncated(TrimDetail(again, maxBytes), maxBytes);
  }

  /** With guidance attached the report stays within the budget, and the response exceeds its
      report by the digits gained since the trim: at most one byte. */
  lemma GuidedReport(o: Output, maxBytes: nat)
    requires o.more == None && |Encode(o)| > maxBytes && Finalize(o, maxBytes).more.Some?
    ensures var r, trimmed := Finalize(o, maxBytes), FirstTrim(o, maxBytes);
            && r.returnedBytes <= maxBytes
            && |Encode(r)| == r.returnedBytes + Digits(r.returnedBytes) - Digits(trimmed.returnedBytes)
            && |Encode(r)| <= r.returnedBytes + 1
  {
    hide FrameLen, Encode;
    EncodeLen(o);
    EncodeLen(Finalize(o, maxBytes));
    var trimmed := FirstTrim(o, maxBytes);
    var guided := WithGuidance(trimmed, maxBytes);
    GuidanceIsLast(o, maxBytes);
    FrameIgnoresReport(guided, EncodedLen(guided));
    GuidedFrame(trimmed, maxBytes);
    TrimmedWeight(o, maxBytes);
    ReportGrowth(trimmed.returnedBytes, EncodedLen(guided));
  }

  lemma ReportGrowth(before: nat, after: nat)
    requires 60 <= before && after <= before + 285 + Digits(before)
    ensures Digits(after) <= Digits(before) + 1
  {
    DigitsAtMost(before);
    DigitsMonotone(after, 10 * before);
    assert Digits(10 * before) == 1 + Digits(before);
  }

  lemma {:induction false} DigitsAtMost(n: nat)
    ensures Digits(n) <= n + 1
  {
    if n >= 10 {
      DigitsAtMost(n / 10);
    }
  }

  /** The smaller of twice the budget and the largest one. */
  ghost predicate IsSuggestion(suggested: nat, maxBytes: nat) {
    && suggested <= MAX_MAX_BYTES && suggested <= 2 * maxBytes
    && (suggested == 2 * maxBytes || suggested == MAX_MAX_BYTES)
  }

  ghost predicate IsGuidance(more: More, mode: string, maxBytes: nat) {
    && more.hints == HINTS && more.options.retryWithoutIndexes
    && (more.options.useTableMode <==> mode == MODE_TABLES)
    && more.options.suggestedMaxBytes.Some? && IsSuggestion(more.options.suggestedMaxBytes.value, maxBytes)
  }

  ghost predicate Fits(o: Output, maxBytes: nat) {
    |Encode(o)| <= maxBytes
  }

  /** A response is cut exactly when its encoding is over the budget. Guidance comes with a cut
      response exactly when the budget could be raised and the guidance fits beside what the first
      trim leaves, and then suggests twice the budget, up to the largest. */
  lemma GuidanceIff(o: Output, maxBytes: nat)
    requires !o.truncated && o.more == None
    ensures var r := Finalize(o, maxBytes);
            && (r.truncated <==> !Fits(o, maxBytes))
            && (r.more.Some? <==>
                  !Fits(o, maxBytes) && maxBytes < MAX_MAX_BYTES
                  && Fits(WithGuidance(FirstTrim(o, maxBytes), maxBytes), maxBytes))
            && (r.more.Some? ==> IsGuidance(r.more.value, o.mode, maxBytes))
  {
    hide FrameLen, Encode;
    EncodeLen(o);
    EncodeLen(WithGuidance(FirstTrim(o, maxBytes), maxBytes));
    FinalizeKeepsTruncated(o, maxBytes);
    if EncodedLen(o) > maxBytes {
      var start := Measure(o).(truncated := true);
      TrimKeepsTruncated(start, maxBytes);
      TrimKeepsTruncated(TrimDetail(start, maxBytes), maxBytes);
      var again := Guided(o, maxBytes).(more := None);
      TrimKeepsTruncated(again, maxBytes);
      TrimKeepsTruncated(TrimDetail(again, maxBytes), maxBytes);
    }
  }

  // ---------- when the response breaks its budget ----------

  /** The last value measured before a trimmed response without guidance is sent. */
  function LastTrim(o: Output, maxBytes: nat): Output {
    if Guided(o, maxBytes).returnedBytes <= maxBytes then FirstTrim(o, maxBytes) else SecondTrim(o, maxBytes)
  }

  /** Exactly when the encoded response is longer than the budget. Untrimmed: when its length and the
      digits it leaves out are. With guidance: when the report is the budget itself and has a digit
      more than the report before it. Without guidance: never while the report is within the budget;
      beyond it nothing is left to trim. */
  lemma OverBudgetIff(o: Output, maxBytes: nat)
    requires o.returnedBytes == 0 && !o.truncated && o.more == None
    ensures var r := Finalize(o, maxBytes);
            |Encode(r)| > maxBytes <==>
              if !r.truncated then |Encode(o)| + Digits(|Encode(o)|) - 1 > maxBytes
              else if r.more.Some? then
                r.returnedBytes == maxBytes && Digits(maxBytes) == Digits(FirstTrim(o, maxBytes).returnedBytes) + 1
              else
                && r.returnedBytes > maxBytes && NothingToTrim(r)
                && r.returnedBytes + Digits(r.returnedBytes) - Digits(LastTrim(o, maxBytes).returnedBytes) > maxBytes
  {
    hide FrameLen, Encode;
    EncodeLen(o);
    EncodeLen(Finalize(o, maxBytes));
    FinalizeKeepsTruncated(o, maxBytes);
    var r := Finalize(o, maxBytes);
    if EncodedLen(o) <= maxBytes {
      UntrimmedOverBudget(o, maxBytes);
    } else if r.more.Some? {
      GuidedReport(o, maxBytes);
    } else {
      MeasureError(LastTrim(o, maxBytes));
      PlainIsLastTrim(o, maxBytes);
      ReportWithinBudget(o, maxBytes);
      if r.returnedBytes <= maxBytes {
        TrimmedReport(o, maxBytes);
      }
    }
  }

  lemma UntrimmedOverBudget(o: Output, maxBytes: nat)
    requires o.returnedBytes == 0 && EncodedLen(o) <= maxBytes
    ensures EncodedLen(Finalize(o, maxBytes)) == EncodedLen(o) + Digits(EncodedLen(o)) - 1
  {
    MeasureError(o);
  }

  lemma PlainIsLastTrim(o: Output, maxBytes: nat)
    requires EncodedLen(o) > maxBytes && Finalize(o, maxBytes).more == None
    ensures Finalize(o, maxBytes) == Measure(LastTrim(o, maxBytes))
  {
    hide EncodedLen, FrameLen;
  }

  // ---------- responses that break it ----------

  function Letters(n: nat): string {
    seq(n, _ => 'a')
  }

  /** Columns of type text, named by letters; names of different lengths are different names. */
  function TextColumns(lengths: seq<nat>): (columns: seq<Column>)
    ensures |columns| == |lengths|
  {
    seq(|lengths|, i requires 0 <= i < |lengths| => Column(Letters(lengths[i]), "text", true, false))
  }

  function TextTable(namespace: nat, name: nat, columns: seq<nat>, indexes: seq<Index>): Output {
    var detail := TableDetail(Letters(namespace), Letters(name), "table", TextColumns(columns), [], indexes);
    Output(MODE_TABLE, [], Some(detail), None, false, 0, None, 0)
  }

  function ColumnBytes(lengths: seq<nat>): nat {
    if lengths == [] then 0 else 42 + lengths[0] + ColumnBytes(lengths[1..])
  }

  lemma LettersLen(n: nat)
    ensures StrLen(Letters(n)) == n + 2
  {
    hide CharsLen;
    PlainLen(Letters(n));
  }

  lemma KindLens()
    ensures StrLen("table") == 7 && StrLen("text") == 6
  {
    var table, text := "table", "text";
    hide CharsLen;
    PlainLen(table);
    PlainLen(text);
  }

  lemma TextColumnLen(n: nat)
    ensures ColumnLen(Column(Letters(n), "text", true, false)) == 41 + n
  {
    hide StrLen, Letters;
    LettersLen(n);
    KindLens();
  }

  lemma {:induction false} TextColumnsLen(lengths: seq<nat>)
    ensures ElementsLen(TextColumns(lengths), ColumnLen) == ColumnBytes(lengths)
  {
    if lengths != [] {
      hide ColumnLen, Letters;
      TextColumnLen(lengths[0]);
      TextColumnsLen(lengths[1..]);
      assert TextColumns(lengths)[1..] == TextColumns(lengths[1..]);
    }
  }

  /** Without its index part, a text table's response without guidance. */
  lemma TextTableLen(o: Output, namespace: nat, name: nat, columns: seq<nat>)
    requires columns != [] && o.table.Some? && o.table.value.indexes == []
    requires o == TextTable(namespace, name, columns, []).(truncated := o.truncated, returnedBytes := o.returnedBytes)
    ensures FrameLen(o) == namespace + name + ColumnBytes(columns) + if o.truncated then 128 else 129
  {
    hide StrLen, Letters, ColumnLen, ElementsLen, Digits;
    LettersLen(namespace);
    LettersLen(name);
    KindLens();
    TextColumnsLen(columns);
    assert Digits(0) == 1 by {
      OneDigit();
    }
  }

  lemma OneDigit()
    ensures Digits(0) == 1
  {
  }

  lemma UntrimmedAt(namespace: nat, name: nat, columns: seq<nat>)
    requires columns != [] && namespace + name + ColumnBytes(columns) == 894
    ensures var r := Finalize(TextTable(namespace, name, columns, []), 1024);
            !r.truncated && r.returnedBytes == 1024 && EncodedLen(r) == 1027
  {
    hide Encode, FrameLen, ColumnBytes, TextColumns, Letters;
    var o := TextTable(namespace, name, columns, []);
    TextTableLen(o, namespace, name, columns);
    OneDigit();
    assert Digits(1024) == 4;
    assert EncodedLen(o) == 1024;
    MeasureError(o);
  }

  /** An ordinary table that fits the budget as built: reported as 1024 bytes, encoded as 1027. */
  lemma UntrimmedOverBudgetExists()
    ensures var r := Finalize(TextTable(20, 62, [63, 62, 61, 60, 59, 58, 57, 56], []), 1024);
            !r.truncated && r.returnedBytes == 1024 && |Encode(r)| == 1027
  {
    SumOfEight();
    hide Finalize, ColumnBytes, TextTable, EncodedLen, Encode;
    UntrimmedAt(20, 62, [63, 62, 61, 60, 59, 58, 57, 56]);
    EncodeLen(Finalize(TextTable(20, 62, [63, 62, 61, 60, 59, 58, 57, 56], []), 1024));
  }

  lemma SumOfEight()
    ensures ColumnBytes([63, 62, 61, 60, 59, 58, 57, 56]) == 812
  {
    assert ColumnBytes([59, 58, 57, 56]) == 398 by {
      assert [59, 58, 57, 56][1..] == [58, 57, 56] && [58, 57, 56][1..] == [57, 56] && [57, 56][1..] == [56];
    }
    var all := [63, 62, 61, 60, 59, 58, 57, 56];
    assert all[1..] == [62, 61, 60, 59, 58, 57, 56] && all[1..][1..] == [61, 60, 59, 58, 57, 56];
    assert all[1..][1..][1..] == [60, 59, 58, 57, 56] && all[1..][1..][1..][1..] == [59, 58, 57, 56];
  }

  /** The guidance of a table's response at 1024 bytes. */
  lemma TableGuidanceLen(o: Output)
    requires o.mode == MODE_TABLE
    ensures |",\"more\":"| + MoreLen(Guidance(o, 1024)) == 255
  {
    hide CharsLen;
    HintsArePlain();
    PlainLen(HINTS[0]);
    PlainLen(HINTS[1]);
    assert |HINTS[0]| == 106 && |HINTS[1]| == 56;
    assert HINTS[1..] == [HINTS[1]] && HINTS[1..][1..] == [];
    assert ElementsLen(HINTS[1..], StrLen) == StrLen(HINTS[1]) + 1 + ElementsLen(HINTS[1..][1..], StrLen);
    assert ElementsLen(HINTS, StrLen) == StrLen(HINTS[0]) + 1 + ElementsLen(HINTS[1..], StrLen);
    assert Digits(2048) == 4;
    assert MODE_TABLE != MODE_TABLES;
  }

  /** The bare table is 766 bytes and a three-digit report; with the guidance the report is 1024. */
  lemma GuidedAt(namespace: nat, name: nat, columns: seq<nat>, indexes: seq<Index>)
    requires columns != [] && namespace + name + ColumnBytes(columns) == 638 && indexes != []
    requires 1024 < EncodedLen(TextTable(namespace, name, columns, indexes)) < 10_000
    ensures var r := Finalize(TextTable(namespace, name, columns, indexes), 1024);
            && r.truncated && r.more.Some? && r.table.Some? && |r.table.value.columns| == |columns|
            && r.returnedBytes == 1024 && EncodedLen(r) == 1025
  {
    hide Encode, FrameLen, MoreLen, ColumnBytes, TextColumns, Letters;
    var o := TextTable(namespace, name, columns, indexes);
    var start := Measure(o).(truncated := true);
    var bare := start.(table := Some(start.table.value.(indexes := [])));
    TextTableLen(bare, namespace, name, columns);
    FourDigits(EncodedLen(o));
    assert Measure(bare).returnedBytes == 770;
    assert TrimDetail(start, 1024) == TrimDetail(Measure(bare), 1024) == Measure(bare);
    assert FirstTrim(o, 1024) == Measure(bare);
    var guided := WithGuidance(Measure(bare), 1024);
    TableGuidanceLen(Measure(bare));
    FrameWithMore(Measure(bare), Guidance(Measure(bare), 1024));
    FrameIgnoresReport(bare, EncodedLen(bare));
    assert Digits(770) == 3 && Digits(1024) == 4;
    assert Guided(o, 1024).returnedBytes == 1024;
    MeasureError(guided);
  }

  lemma FourDigits(n: nat)
    requires 1000 <= n < 10_000
    ensures Digits(n) == 4
  {
    DigitsMonotone(1000, n);
    DigitsMonotone(n, 9999);
    assert Digits(1000) == Digits(9999) == 4;
  }

  lemma FrameWithMore(o: Output, more: More)
    requires o.more == None
    ensures FrameLen(o.(more := Some(more))) == FrameLen(o) + |",\"more\":"| + MoreLen(more)
  {
    hide StrLen, MoreLen, ArrayLen, DetailLen, PageLen, IntLen, BoolLen;
  }

  lemma IndexedLen(namespace: nat, name: nat, columns: seq<nat>, indexes: seq<Index>)
    requires indexes != []
    ensures FrameLen(TextTable(namespace, name, columns, indexes))
            == FrameLen(TextTable(namespace, name, columns, [])) + 11 + ArrayLen(indexes, IndexLen)
  {
    hide StrLen, Letters, ElementsLen, ColumnLen, IntLen;
  }

  function LetterIndex(name: nat, column: nat): Index {
    Index(Letters(name), [Letters(column)], true, false)
  }

  lemma LetterIndexLen(name: nat, column: nat)
    ensures IndexLen(LetterIndex(name, column)) == name + column + 40
  {
    hide CharsLen, Letters;
    LettersLen(name);
    LettersLen(column);
    var columns := [Letters(column)];
    assert columns[1..] == [];
    assert ElementsLen(columns, StrLen) == StrLen(columns[0]) + 1 + ElementsLen(columns[1..], StrLen);
  }

  lemma TwoIndexesLen(a: Index, b: Index)
    ensures ArrayLen([a, b], IndexLen) == IndexLen(a) + IndexLen(b) + 3
  {
    hide StrLen, ArrayLen;
    var indexes := [a, b];
    assert indexes[1..] == [b] && indexes[1..][1..] == [];
    assert ElementsLen(indexes[1..], IndexLen) == IndexLen(b) + 1 + ElementsLen(indexes[1..][1..], IndexLen);
    assert ElementsLen(indexes, IndexLen) == IndexLen(a) + 1 + ElementsLen(indexes[1..], IndexLen);
    TwoIndexesArray(indexes);
  }

  lemma TwoIndexesArray(indexes: seq<Index>)
    requires indexes != []
    ensures ArrayLen(indexes, IndexLen) == 1 + ElementsLen(indexes, IndexLen)
  {
    hide IndexLen, ElementsLen;
  }

  lemma SumOfFive()
    ensures ColumnBytes([63, 62, 61, 60, 59]) == 515
  {
    var all := [63, 62, 61, 60, 59];
    assert all[1..] == [62, 61, 60, 59] && all[1..][1..] == [61, 60, 59];
    assert all[1..][1..][1..] == [60, 59] && all[1..][1..][1..][1..] == [59];
  }

  /** An ordinary table of five columns whose two indexes are dropped: with the guidance its response
      reports 1024 bytes and is 1025 bytes long. */
  lemma GuidedOverBudgetExists()
    ensures var indexes := [LetterIndex(63, 61), LetterIndex(62, 60)];
            var r := Finalize(TextTable(60, 63, [63, 62, 61, 60, 59], indexes), 1024);
            r.truncated && r.more.Some? && r.returnedBytes == 1024 && |Encode(r)| == 1025
  {
    SumOfFive();
    hide Finalize, FrameLen, ColumnBytes, LetterIndex, Letters, IndexLen, TextColumns, ArrayLen;
    var columns: seq<nat>, a, b := [63, 62, 61, 60, 59], LetterIndex(63, 61), LetterIndex(62, 60);
    LetterIndexLen(63, 61);
    LetterIndexLen(62, 60);
    TwoIndexesLen(a, b);
    TextTableLen(TextTable(60, 63, columns, []), 60, 63, columns);
    IndexedLen(60, 63, columns, [a, b]);
    OneDigit();
    hide TextTable, EncodedLen, Encode;
    GuidedAt(60, 63, columns, [a, b]);
    EncodeLen(Finalize(TextTable(60, 63, columns, [a, b]), 1024));
  }

  /** A table whose names are ordinary identifiers: 63 bytes each, even if every byte needs an escape. */
  ghost predicate Ordinary(t: TableSummary) {
    StrLen(t.namespace) + StrLen(t.name) <= 256 && StrLen(t.kind) <= 7
  }

  ghost predicate OrdinaryPage(o: Output) {
    && StrLen(o.mode) <= 8 && o.table == None && o.page.Some?
    && IntLen(o.page.value.limit) <= 3 && o.page.value.returned <= 100
    && StrLen(o.page.value.nextCursor) <= 255
    && |o.tables| <= 100 && (forall t <- o.tables :: Ordinary(t))
    && IntLen(o.latencyMs) <= 20
    && (o.more.Some? ==> |",\"more\":"| + MoreLen(o.more.value) <= 285)
  }

  lemma {:induction false} TablesLen(tables: seq<TableSummary>)
    requires forall t <- tables :: Ordinary(t)
    ensures ElementsLen(tables, SummaryLen) <= 294 * |tables|
  {
    if tables != [] {
      assert Ordinary(tables[0]);
      TablesLen(tables[1..]);
    }
  }

  lemma OrdinaryPageLen(p: Page)
    requires IntLen(p.limit) <= 3 && p.returned <= 100 && StrLen(p.nextCursor) <= 255
    ensures PageLen(p) <= 315
  {
    hide CharsLen, StrLen, IntLen;
    DigitsMonotone(p.returned, 100);
    assert Digits(100) == 3;
    hide Digits;
  }

  lemma OrdinaryFrame(o: Output)
    requires OrdinaryPage(o)
    ensures FrameLen(o) <= 706 + 294 * |o.tables|
  {
    hide CharsLen, StrLen, SummaryLen, ElementsLen, MoreLen, IntLen, DetailLen, PageLen;
    TablesLen(o.tables);
    OrdinaryPageLen(o.page.value);
  }

  lemma OrdinaryCursor(tables: seq<TableSummary>)
    requires forall t <- tables :: Ordinary(t)
    ensures StrLen(LastCursor(tables)) <= 255
  {
    if tables != [] {
      var last := tables[|tables| - 1];
      assert Ordinary(last);
      CharsLenConcat(last.namespace + ".", last.name);
      CharsLenConcat(last.namespace, ".");
    }
  }

  lemma OrdinaryMeasure(o: Output)
    requires OrdinaryPage(o) && o.returnedBytes <= 99_999
    ensures OrdinaryPage(Measure(o))
    ensures Measure(o).returnedBytes <= 99_999
    ensures |o.tables| == 1 ==> Measure(o).returnedBytes <= 1024
  {
    OrdinaryFrame(o);
    DigitsMonotone(o.returnedBytes, 99_999);
    assert Digits(99_999) == 5;
    hide FrameLen;
  }

  lemma {:induction false} TrimTablesKeepsATable(o: Output, maxBytes: nat)
    requires OrdinaryPage(o) && o.returnedBytes <= 99_999 && 1024 <= maxBytes && o.tables != []
    requires |o.tables| == 1 ==> o.returnedBytes <= maxBytes
    ensures var r := TrimTables(o, maxBytes);
            OrdinaryPage(r) && r.returnedBytes <= 99_999 && r.tables != []
    decreases |o.tables|
  {
    hide FrameLen, MoreLen;
    if o.returnedBytes > maxBytes {
      var x := DropLastTable(o);
      OrdinaryCursor(x.tables);
      OrdinaryMeasure(x);
      TrimTablesKeepsATable(Measure(x), maxBytes);
    }
  }

  /** A page of at most 100 ordinary tables, once finalized, keeps at least one of them under
      every budget the service admits. */
  lemma PageKeepsATable(o: Output, maxBytes: nat)
    requires OrdinaryPage(o) && o.returnedBytes == 0 && 1024 <= maxBytes && o.tables != []
    ensures Finalize(o, maxBytes).tables != []
  {
    hide FrameLen, MoreLen;
    OrdinaryMeasure(o);
    var start := Measure(o).(truncated := true);
    if Measure(o).returnedBytes > maxBytes {
      TrimTablesKeepsATable(start, maxBytes);
      var trimmed := TrimPayload(start, maxBytes);
      assert TrimDetail(start, maxBytes) == start;
      var guided := WithGuidance(trimmed, maxBytes);
      if maxBytes < MAX_MAX_BYTES {
        GuidanceLen(Guidance(trimmed, maxBytes), maxBytes);
      }
      OrdinaryMeasure(guided);
      var again := Measure(guided).(more := None);
      if again.returnedBytes > maxBytes {
        assert TrimDetail(again, maxBytes) == again;
        TrimTablesKeepsATable(again, maxBytes);
      }
    }
  }
}
