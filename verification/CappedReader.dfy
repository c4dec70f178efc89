/** Reading a target's response up to a byte limit: `read_capped`
    (backend/crates/service/src/api_call/target.rs). */
module CappedReader {
  import opened Wrappers

  type Byte = bv8

  const USIZE_MAX: nat := 0xFFFF_FFFF_FFFF_FFFF

  /** A response body: its declared length, the chunks it arrives in, and whether the read after
      the last of them fails. */
  datatype Response = Response(contentLength: Option<nat>, chunks: seq<seq<Byte>>, broken: bool)

  datatype Capped = Capped(body: seq<Byte>, size: nat, truncated: bool)

  function SaturatingAdd(a: nat, b: nat): nat {
    if a + b <= USIZE_MAX then a + b else USIZE_MAX
  }

  function Concat(chunks: seq<seq<Byte>>): seq<Byte> {
    if chunks == [] then [] else Concat(chunks[..|chunks| - 1]) + chunks[|chunks| - 1]
  }

  function Prefix(bytes: seq<Byte>, n: nat): seq<Byte> {
    if |bytes| <= n then bytes else bytes[..n]
  }

  /** The answer as a function of the bytes alone. */
  function CapBytes(bytes: seq<Byte>, broken: bool, limit: nat): Result<Capped, Error> {
    if |bytes| > limit && limit < USIZE_MAX then Ok(Capped(Prefix(bytes, limit), limit + 1, true))
    else if broken then Err(Internal)
    else Ok(Capped(Prefix(bytes, limit), SaturatingAdd(|bytes|, 0), false))
  }

  lemma {:induction false} ConcatPrefix(chunks: seq<seq<Byte>>, i: nat)
    requires i <= |chunks|
    ensures Concat(chunks[..i]) <= Concat(chunks)
    decreases |chunks| - i
  {
    if i < |chunks| {
      assert chunks[..i + 1][..i] == chunks[..i];
      ConcatPrefix(chunks, i + 1);
    } else {
      assert chunks[..i] == chunks;
    }
  }

  lemma ConcatNext(chunks: seq<seq<Byte>>, i: nat)
    requires i < |chunks|
    ensures Concat(chunks[..i + 1]) == Concat(chunks[..i]) + chunks[i]
    ensures Concat(chunks[..i + 1]) <= Concat(chunks)
  {
    assert chunks[..i + 1][..i] == chunks[..i];
    ConcatPrefix(chunks, i + 1);
  }

  /** Once past the limit, what follows does not matter. */
  lemma PastTheLimit(seen: seq<Byte>, bytes: seq<Byte>, broken: bool, limit: nat)
    requires seen <= bytes && limit < |seen| && limit < USIZE_MAX
    ensures CapBytes(bytes, broken, limit) == Ok(Capped(Prefix(seen, limit), SaturatingAdd(limit, 1), true))
  {
    assert bytes[..limit] == seen[..limit];
  }

  lemma CountSaturates(n: nat, added: nat, limit: nat)
    requires limit <= USIZE_MAX
    ensures SaturatingAdd(SaturatingAdd(n, 0), added) == SaturatingAdd(n + added, 0)
    ensures SaturatingAdd(n + added, 0) > limit <==> n + added > limit && limit < USIZE_MAX
  {
  }

  lemma PrefixGrows(bytes: seq<Byte>, chunk: seq<Byte>, limit: nat)
    ensures var out := Prefix(bytes, limit);
            && |out| <= limit
            && Prefix(bytes + chunk, limit)
               == if |out| < limit then out + Prefix(chunk, limit - |out|) else out
  {
  }

  /** Chunk boundaries do not matter: the result is that of the concatenated bytes, unless the
      declared length alone already exceeds the limit. */
  method ReadCapped(response: Response, limit: nat) returns (r: Result<Capped, Error>)
    requires limit <= USIZE_MAX
    ensures response.contentLength.Some? && response.contentLength.value > limit ==>
              r == Ok(Capped([], SaturatingAdd(response.contentLength.value, 0), true))
    ensures !(response.contentLength.Some? && response.contentLength.value > limit) ==>
              r == CapBytes(Concat(response.chunks), response.broken, limit)
  {
    if response.contentLength.Some? && response.contentLength.value > limit {
      return Ok(Capped([], SaturatingAdd(response.contentLength.value, 0), true));
    }
    assert Concat(response.chunks[..0]) == [] && SaturatingAdd(0, 0) == 0;
    hide Concat, CapBytes, SaturatingAdd;
    var out: seq<Byte> := [];
    var original := 0;
    ghost var seen: seq<Byte> := [];
    for i := 0 to |response.chunks|
      invariant seen == Concat(response.chunks[..i])
      invariant out == Prefix(seen, limit) && original == SaturatingAdd(|seen|, 0)
      invariant |seen| <= limit || limit == USIZE_MAX
    {
      var chunk := response.chunks[i];
      ConcatNext(response.chunks, i);
      PrefixGrows(seen, chunk, limit);
      CountSaturates(|seen|, |chunk|, limit);
      seen := seen + chunk;
      var nextOriginal := SaturatingAdd(original, |chunk|);
      if |out| < limit {
        var remaining := limit - |out|;
        var take := if remaining <= |chunk| then remaining else |chunk|;
        assert Prefix(chunk, remaining) == chunk[..take];
        out := out + chunk[..take];
      }
      if nextOriginal > limit {
        PastTheLimit(seen, Concat(response.chunks), response.broken, limit);
        return Ok(Capped(out, SaturatingAdd(limit, 1), true));
      }
      original := nextOriginal;
    }
    assert response.chunks[..|response.chunks|] == response.chunks;
    if response.broken {
      return Err(Internal);
    }
    r := Ok(Capped(out, original, false));
  }

  /** What a complete read reports: the first min(total, limit) bytes, a size of min(total, limit + 1),
      and truncation exactly when there was more. All three hold for every body exactly when the
      limit is below the largest machine size. */
  lemma ReportIsExact(limit: nat)
    requires limit <= USIZE_MAX
    ensures limit < USIZE_MAX <==>
            forall bytes: seq<Byte> :: ExactReport(bytes, limit)
  {
    if limit == USIZE_MAX {
      var bytes: seq<Byte> := seq(USIZE_MAX + 1, i => 0);
      assert |bytes| == USIZE_MAX + 1;
      assert !ExactReport(bytes, limit);
    }
  }

  ghost predicate ExactReport(bytes: seq<Byte>, limit: nat) {
    var r := CapBytes(bytes, false, limit);
    && r.Ok?
    && r.value.body <= bytes && |r.value.body| == (if |bytes| <= limit then |bytes| else limit)
    && r.value.size == (if |bytes| <= limit then |bytes| else limit + 1)
    && (r.value.truncated <==> |bytes| > limit)
  }
}
