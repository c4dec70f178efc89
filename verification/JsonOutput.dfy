/**
 Shaping a JSON body for return: projection, byte budget and truncation guidance
 (backend/crates/json-output/src/json.rs). The two entry points start from bytes and from a value.
 */
module JsonOutput {
  import opened Wrappers
  import opened Text
  import opened Json
  import opened PreviewPath
  import opened PreviewStats
  import opened PreviewRanking
  import opened Projection

  datatype SourceBodyMode = SourceRawJson | SourceColumnarJson
  datatype BodyMode = RawJson | ColumnarJson | JsonpathProjection | TableProjectionMode
  datatype BodyState = Returned | Omitted
  datatype OmitReason = OmitOutput | OmitProjection | OmitSource
  datatype NextAction = AddJsonpath | NarrowJsonpath | NarrowTableProjection | NarrowRequest | AdjustMaxRows

  datatype Options = Options(
    maxBytes: nat,
    maxAllowedBytes: nat,
    jsonPaths: seq<string>,
    table: Option<TableProjection>,
    sourceBodyTruncated: bool,
    originalBytes: Option<nat>,
    sourceBodyMode: SourceBodyMode)
  {
    predicate IsProjection() {
      jsonPaths != [] || table.Some?
    }
  }

  datatype MoreOptions = MoreOptions(
    nextAction: NextAction,
    suggestedJsonpath: seq<string>,
    suggestedMaxBytes: Option<nat>)

  datatype More = More(options: MoreOptions, preview: Option<Preview>)

  datatype Output = Output(
    bodyMode: BodyMode,
    bodyState: BodyState,
    omitReason: Option<OmitReason>,
    body: Value,
    originalBytes: nat,
    returnedBytes: nat,
    truncated: bool,
    more: Option<More>)

  /** Library code and the preview builder. A preview is a function of the body: see
      PreviewRanking.PreviewUnique, and `Faithful` below. */
  datatype Library = Library(
    paths: PathLibrary,
    decode: seq<Byte> -> Option<Value>,
    preview: Value -> Option<Preview>)

  // ---------- counting encoded bytes without building them ----------

  class ByteCounter {
    var count: nat

    constructor ()
      ensures count == 0
    {
      count := 0;
    }

    method Write(bytes: seq<Byte>)
      modifies this
      ensures count == old(count) + |bytes|
    {
      count := count + |bytes|;
    }

    /** The serializer's writes for one value. */
    method WriteValue(v: Value)
      modifies this
      ensures count == old(count) + |Compact(v)|
      decreases v, 1
    {
      match v {
        case Array(items) =>
          Write([0x5B]);
          WriteItems(items);
          Write([0x5D]);
        case Object(members) =>
          Write([0x7B]);
          WriteMembers(members);
          Write([0x7D]);
        case _ =>
          Write(Compact(v));
      }
    }

    method WriteItems(items: seq<Value>)
      modifies this
      ensures count == old(count) + |CompactItems(items)|
      decreases items, 0
    {
      for i := 0 to |items|
        invariant count + |CompactItems(items[i..])| + (if 0 < i < |items| then 1 else 0)
                  == old(count) + |CompactItems(items)|
      {
        if i > 0 {
          Write([0x2C]);
        }
        WriteValue(items[i]);
        assert items[i..][1..] == items[i + 1..];
      }
    }

    method WriteMembers(members: seq<Member>)
      modifies this
      ensures count == old(count) + |CompactMembers(members)|
      decreases members, 0
    {
      for i := 0 to |members|
        invariant count + |CompactMembers(members[i..])| + (if 0 < i < |members| then 1 else 0)
                  == old(count) + |CompactMembers(members)|
      {
        if i > 0 {
          Write([0x2C]);
        }
        Write(EncodeStr(members[i].key));
        Write([0x3A]);
        WriteValue(members[i].value);
        assert members[i..][1..] == members[i + 1..];
      }
    }
  }

  method CompactJsonLen(v: Value) returns (n: nat)
    ensures n == |Compact(v)|
  {
    var counter := new ByteCounter();
    counter.WriteValue(v);
    n := counter.count;
  }

  // ---------- guidance ----------

  function OutputBodyMode(options: Options): BodyMode {
    if options.table.Some? then TableProjectionMode
    else if options.jsonPaths == [] then
      match options.sourceBodyMode case SourceRawJson => RawJson case SourceColumnarJson => ColumnarJson
    else JsonpathProjection
  }

  function ActionFor(options: Options, reason: OmitReason): NextAction {
    match reason
    case OmitSource => NarrowRequest
    case OmitOutput => AddJsonpath
    case OmitProjection => if options.table.Some? then NarrowTableProjection else NarrowJsonpath
  }

  function Scalars(entries: seq<Entry>): seq<string> {
    if entries == [] then []
    else
      (if entries[0].stat.valueType != "object" && entries[0].stat.valueType != "array" then [entries[0].path] else [])
      + Scalars(entries[1..])
  }

  function SuggestedJsonPaths(preview: Preview, limit: nat): seq<string> {
    var paths := Scalars(preview.paths);
    if |paths| <= limit then paths else paths[..limit]
  }

  function TruncationOptions(options: Options, preview: Option<Preview>, bodyBytes: nat,
                             reason: OmitReason): MoreOptions {
    MoreOptions(
      ActionFor(options, reason),
      if preview.Some? then SuggestedJsonPaths(preview.value, 3) else [],
      if reason != OmitSource && options.maxBytes < options.maxAllowedBytes
      then Some(Min(bodyBytes, options.maxAllowedBytes)) else None)
  }

  function TruncatedOutput(originalBytes: nat, options: Options, preview: Option<Preview>, bodyBytes: nat,
                           reason: OmitReason): Output {
    Output(OutputBodyMode(options), Omitted, Some(reason), Null, originalBytes, 0, true,
           Some(More(TruncationOptions(options, preview, bodyBytes, reason), preview)))
  }

  // ---------- shaping ----------

  function FinishOutput(lib: Library, body: Value, originalBytes: nat, bodyBytes: nat, options: Options): Output {
    if bodyBytes <= options.maxBytes then
      Output(OutputBodyMode(options), Returned, None, body, originalBytes, bodyBytes, false, None)
    else
      TruncatedOutput(originalBytes, options, if options.IsProjection() then None else lib.preview(body), bodyBytes,
                      if options.IsProjection() then OmitProjection else OmitOutput)
  }

  function Body(lib: Library, value: Value, options: Options): Result<Value, Error> {
    if options.table.Some? then TableOf(lib.paths, value, options.table.value)
    else if options.jsonPaths == [] then Ok(value)
    else ProjectPaths(lib.paths, value, options.jsonPaths)
  }

  function ShapeOutput(lib: Library, value: Value, originalBytes: nat, options: Options): Result<Output, Error> {
    match Body(lib, value, options)
    case Err(e) => Err(e)
    case Ok(body) => Ok(FinishOutput(lib, body, originalBytes, Len(body), options))
  }

  predicate ValidOptions(lib: Library, options: Options) {
    && ValidPaths(lib.paths, options.jsonPaths)
    && (options.table.Some? ==> ValidTable(lib.paths, options.table.value))
  }

  function BuildJsonOutput(lib: Library, raw: seq<Byte>, options: Options): Result<Output, Error> {
    if !ValidOptions(lib, options) then Err(Validation)
    else
      var originalBytes := options.originalBytes.UnwrapOr(|raw|);
      if options.sourceBodyTruncated then Ok(TruncatedOutput(originalBytes, options, None, 0, OmitSource))
      else
        match lib.decode(raw)
        case None => Err(Validation)
        case Some(value) => ShapeOutput(lib, value, originalBytes, options)
  }

  function BuildFromValue(lib: Library, value: Value, options: Options): Result<Output, Error> {
    if !ValidOptions(lib, options) then Err(Validation)
    else if options.sourceBodyTruncated then
      Ok(TruncatedOutput(options.originalBytes.UnwrapOr(0), options, None, 0, OmitSource))
    else if !options.IsProjection() then
      var bodyBytes := Len(value);
      Ok(FinishOutput(lib, value, options.originalBytes.UnwrapOr(bodyBytes), bodyBytes, options))
    else
      ShapeOutput(lib, value, options.originalBytes.UnwrapOr(Len(value)), options)
  }

  // ---------- the two entry points agree ----------

  /** Text a JSON value can have: a number is never empty. */
  ghost predicate Encodable(v: Value) {
    v.Number? ==> v.text != []
  }

  /** On the compact encoding of a value the two entry points give the same answer, except when
      the source was cut and its size is unknown: then, and only then, the sizes they report differ. */
  lemma EntryPointsAgree(lib: Library, v: Value, options: Options)
    requires lib.decode(Compact(v)) == Some(v) && Encodable(v)
    ensures BuildJsonOutput(lib, Compact(v), options) == BuildFromValue(lib, v, options)
            <==> !(ValidOptions(lib, options) && options.sourceBodyTruncated && options.originalBytes == None)
  {
    hide ValidOptions;
    assert Len(v) >= 1;
  }

  /** A validated call fails only when the bytes are not JSON: projections never do. */
  lemma FailsOnlyOnBadInput(lib: Library, raw: seq<Byte>, options: Options)
    ensures BuildJsonOutput(lib, raw, options).Err?
            <==> !ValidOptions(lib, options) || (!options.sourceBodyTruncated && lib.decode(raw) == None)
  {
    if ValidOptions(lib, options) && lib.decode(raw).Some? {
      BodyOfValidOptions(lib, lib.decode(raw).value, options);
    }
  }

  lemma BodyOfValidOptions(lib: Library, value: Value, options: Options)
    requires ValidOptions(lib, options)
    ensures Body(lib, value, options).Ok?
  {
    if options.table.Some? {
      TableParses(lib.paths, options.table.value);
    } else {
      ValidPathsProject(lib.paths, value, options.jsonPaths);
    }
  }

  lemma TableParses(lib: PathLibrary, table: TableProjection)
    requires ValidTable(lib, table)
    ensures forall value :: TableOf(lib, value, table).Ok?
  {
    hide ValidTable, ParseColumns;
    ColumnsParse(lib, table);
  }

  // ---------- the budget ----------

  /** Why nothing is returned, and what the caller may do about it. */
  ghost predicate Advises(options: Options, reason: OmitReason, action: NextAction) {
    match reason
    case OmitSource => options.sourceBodyTruncated && action == NarrowRequest
    case OmitProjection =>
      && !options.sourceBodyTruncated && (options.table.Some? || options.jsonPaths != [])
      && (if options.table.Some? then action == NarrowTableProjection else action == NarrowJsonpath)
    case OmitOutput =>
      !options.sourceBodyTruncated && options.table == None && options.jsonPaths == [] && action == AddJsonpath
  }

  ghost predicate ModeIs(options: Options, mode: BodyMode) {
    && (mode == TableProjectionMode <==> options.table.Some?)
    && (mode == JsonpathProjection <==> options.table == None && options.jsonPaths != [])
    && (mode == RawJson
        <==> options.table == None && options.jsonPaths == [] && options.sourceBodyMode == SourceRawJson)
  }

  /** A body is returned exactly when its encoding fits the budget, and then the report is its
      length; otherwise nothing is returned and guidance is, with a preview exactly when the whole
      body was asked for. */
  lemma BudgetDecides(lib: Library, raw: seq<Byte>, options: Options)
    requires BuildJsonOutput(lib, raw, options).Ok?
    ensures var out := BuildJsonOutput(lib, raw, options).value;
            && ModeIs(options, out.bodyMode)
            && out.originalBytes == (if options.originalBytes.Some? then options.originalBytes.value else |raw|)
            && (out.bodyState == Returned ==>
                  && !out.truncated && out.more == None && out.omitReason == None
                  && out.returnedBytes == |Compact(out.body)| <= options.maxBytes
                  && Body(lib, lib.decode(raw).value, options) == Ok(out.body))
            && (out.bodyState == Omitted ==>
                  && out.truncated && out.more.Some? && out.body == Null && out.returnedBytes == 0
                  && out.omitReason.Some? && Advises(options, out.omitReason.value, out.more.value.options.nextAction)
                  && out.more.value.preview
                     == (if out.omitReason == Some(OmitOutput) then lib.preview(lib.decode(raw).value) else None)
                  && (options.sourceBodyTruncated
                      || |Compact(Body(lib, lib.decode(raw).value, options).value)| > options.maxBytes))
  {
    hide ValidOptions, TableOf, ProjectPaths, SuggestedJsonPaths;
  }

  /** Retrying with the suggested budget returns the body, or the budget is already the largest
      allowed; with no suggestion there is nothing to gain by a larger budget. */
  lemma RetryWithSuggestion(lib: Library, raw: seq<Byte>, options: Options)
    requires BuildJsonOutput(lib, raw, options).Ok?
    requires BuildJsonOutput(lib, raw, options).value.bodyState == Omitted
    ensures var suggested := BuildJsonOutput(lib, raw, options).value.more.value.options.suggestedMaxBytes;
            match suggested {
              case None => options.sourceBodyTruncated || options.maxAllowedBytes <= options.maxBytes
              case Some(n) =>
                var retry := BuildJsonOutput(lib, raw, options.(maxBytes := n));
                && options.maxBytes < n <= options.maxAllowedBytes
                && n <= |Compact(Body(lib, lib.decode(raw).value, options).value)|
                && retry.Ok? && (retry.value.bodyState == Returned || n == options.maxAllowedBytes)
            }
  {
    var suggested := BuildJsonOutput(lib, raw, options).value.more.value.options.suggestedMaxBytes;
    if suggested.Some? {
      var retry := options.(maxBytes := suggested.value);
      assert ValidOptions(lib, retry);
      assert Body(lib, lib.decode(raw).value, retry) == Body(lib, lib.decode(raw).value, options);
    }
  }

  // ---------- suggestions ----------

  /** The scalar paths in the order of the list, and of those the first few. */
  lemma {:induction false} SuggestionsAre(a: seq<Entry>, e: Entry, b: seq<Entry>)
    ensures Scalars(a + [e] + b)
            == Scalars(a) + (if e.stat.valueType in {"object", "array"} then [] else [e.path]) + Scalars(b)
    ensures Scalars([]) == []
    ensures forall preview: Preview, limit: nat ::
              && SuggestedJsonPaths(preview, limit) <= Scalars(preview.paths)
              && |SuggestedJsonPaths(preview, limit)| == Min(|Scalars(preview.paths)|, limit)
  {
    var all := a + [e] + b;
    if a == [] {
      assert all == [e] + b && all[1..] == b;
    } else {
      assert all[1..] == a[1..] + [e] + b;
      SuggestionsAre(a[1..], e, b);
    }
  }

  lemma {:induction false} ScalarsFrom(entries: seq<Entry>, path: string)
    requires path in Scalars(entries)
    ensures exists e <- entries :: e.path == path && e.stat.valueType != "object" && e.stat.valueType != "array"
  {
    if path !in Scalars(entries[1..]) {
      assert entries[0] in entries;
    } else {
      ScalarsFrom(entries[1..], path);
    }
  }

  lemma SuggestedFromTable(preview: Preview, stats: map<string, Stat>, path: string)
    requires IsPreview(preview, stats) && path in SuggestedJsonPaths(preview, 3)
    ensures path in stats && stats[path].valueType != "object" && stats[path].valueType != "array"
  {
    hide PathsLen, Score;
    ScalarsFrom(preview.paths, path);
    var e :| e in preview.paths && e.path == path && e.stat.valueType != "object" && e.stat.valueType != "array";
    var ranking :| IsRanking(ranking, stats) && |ranking| == |stats| && LongestPrefix(preview.paths, ranking);
    assert e in ranking;
  }

  /** The preview is what BuildPreview returns, and decoded objects map each key once. */
  ghost predicate Faithful(lib: Library) {
    && (forall v :: IsPreviewOf(lib.preview(v), v))
    && (forall raw :: lib.decode(raw).Some? ==> UniqueKeys(lib.decode(raw).value))
  }

  /** Every path an answer suggests is a printed location of the decoded body at which a scalar was
      first seen; the steps it prints select at least one node of the body, and the text is a
      well-formed query for them exactly when no key on it holds a control character. */
  lemma SuggestionsSelect(lib: Library, raw: seq<Byte>, options: Options, path: string)
    requires Faithful(lib) && BuildJsonOutput(lib, raw, options).Ok?
    ensures var more := BuildJsonOutput(lib, raw, options).value.more;
            more.Some? && path in more.value.options.suggestedJsonpath ==>
              && lib.decode(raw).Some?
              && var body := lib.decode(raw).value;
              exists q :: Print(q) == path && Select(body, q) != []
                          && Sampled(body, q) != [] && TypeName(Sampled(body, q)[0]) !in {"object", "array"}
                          && Parse(path, Rfc) == (if HasControlKey(q) then None else Some(q))
  {
    hide ValidOptions, SuggestedJsonPaths, IsPreviewOf, Select, Nodes, Parse, Print, HasControlKey, Compact, Len;
    var more := BuildJsonOutput(lib, raw, options).value.more;
    if more.Some? && path in more.value.options.suggestedJsonpath {
      assert !options.sourceBodyTruncated && !options.IsProjection();
      var body := lib.decode(raw).value;
      assert IsPreviewOf(lib.preview(body), body);
      assert path in SuggestedJsonPaths(lib.preview(body).value, 3);
      SuggestionSelects(body, lib.preview(body), path);
    }
  }

  lemma SuggestionSelects(root: Value, preview: Option<Preview>, path: string)
    requires UniqueKeys(root) && IsPreviewOf(preview, root) && path in SuggestedJsonPaths(preview.value, 3)
    ensures exists q :: Print(q) == path && Select(root, q) != []
                        && Sampled(root, q) != [] && TypeName(Sampled(root, q)[0]) !in {"object", "array"}
                        && Parse(path, Rfc) == (if HasControlKey(q) then None else Some(q))
  {
    hide Statistics, IsPreview, SuggestedJsonPaths, Print, Parse, Nodes, Select, TypeName, IsBound, CountNulls,
      HasControlKey, UniqueKeys, MeetsObject;
    var stats :| PrintedFrom(root, stats) && IsPreview(preview.value, stats);
    SuggestedFromTable(preview.value, stats, path);
    var q :| q in Statistics(root) && Print(q) == path;
    PresentCountsSelectedNodes(root, q);
    StatisticsDescribe(root, q);
    PrintedPathIsQuery(q);
  }
}
