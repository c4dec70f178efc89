/**
 What api_call lets a caller send (backend/crates/service/src/api_call/policy.rs, service.rs),
 and why the secret-override check behind it can never fire.
 */
module ApiCallPolicy {
  import opened Wrappers
  import opened Text
  import opened CredentialModel
  import opened CredentialRuns

  /** The parts of a normalized call the policy reads: query keys and header names are map keys. */
  datatype Call = Call(method_: string, requestPath: string, queryKeys: seq<string>, headerNames: seq<string>)

  datatype Denial =
    | MethodNotAllowed
    | RequestPathNotAllowed
    | QueryKeyDenied
    | RequestHeaderBlocked
    | RequestHeaderNotAllowed

  const BLOCKED_HEADERS := {
    "authorization", "connection", "content-length", "content-type", "cookie", "host", "keep-alive",
    "proxy-authorization", "te", "trailer", "transfer-encoding", "upgrade"}

  predicate Among(lower: string, start: string, names: set<string>) {
    StartsWith(lower, start) || lower in names
  }

  predicate HeaderBlocked(name: string) {
    Among(Lower(Trim(name)), "x-forwarded-", BLOCKED_HEADERS)
  }

  /** The prefix itself, or a path that continues it at a slash. */
  predicate PathMatchesPrefix(path: string, prefix: string) {
    var stem := TrimSlashes(prefix);
    prefix == "/" || path == prefix || (StartsWith(path, stem) && StartsWith(path[|stem|..], "/"))
  }

  function CheckHeaders(policy: Policy, names: seq<string>): Result<(), Denial> {
    if names == [] then Ok(())
    else if HeaderBlocked(names[0]) then Err(RequestHeaderBlocked)
    else if !ContainsFold(policy.allowedRequestHeaders, names[0]) then Err(RequestHeaderNotAllowed)
    else CheckHeaders(policy, names[1..])
  }

  function ValidatePolicyBoundary(policy: Policy, call: Call): Result<(), Denial> {
    if !ContainsFold(policy.allowedMethods, call.method_) then Err(MethodNotAllowed)
    else if !exists i | 0 <= i < |policy.allowedRequestPathPrefixes| ::
              PathMatchesPrefix(call.requestPath, policy.allowedRequestPathPrefixes[i])
    then Err(RequestPathNotAllowed)
    else if exists i | 0 <= i < |call.queryKeys| :: ContainsFold(policy.deniedQueryKeys, call.queryKeys[i])
    then Err(QueryKeyDenied)
    else CheckHeaders(policy, call.headerNames)
  }

  predicate CallerOverridesSecretHeader(secretNames: seq<string>, call: Call) {
    exists i, j | 0 <= i < |secretNames| && 0 <= j < |call.headerNames| :: EqFold(call.headerNames[j], secretNames[i])
  }

  lemma {:induction false} CheckHeadersIff(policy: Policy, names: seq<string>)
    ensures CheckHeaders(policy, names).Ok?
            <==> forall i | 0 <= i < |names| ::
                   !HeaderBlocked(names[i]) && ContainsFold(policy.allowedRequestHeaders, names[i])
  {
    if names != [] {
      CheckHeadersIff(policy, names[1..]);
      assert forall i | 1 <= i < |names| :: names[i] == names[1..][i - 1];
    }
  }

  // ---------- what the boundary lets through ----------

  ghost predicate Names(items: seq<string>, want: string) {
    exists i | 0 <= i < |items| :: SameIgnoringCase(items[i], want)
  }

  ghost predicate Continues(path: string, stem: string, rest: string) {
    path == stem + "/" + rest
  }

  /** The root admits every path; another prefix admits itself, and what goes on after a slash. */
  ghost predicate Admits(prefix: string, path: string) {
    || prefix == "/"
    || prefix == path
    || exists stem, rest :: IsStem(prefix, stem) && Continues(path, stem, rest)
  }

  /** Whatever its case and the whitespace around it: a name that starts with `start` or is one of `names`. */
  ghost predicate AmongFolded(name: string, start: string, names: set<string>) {
    exists bare :: IsTrimmed(name, bare)
      && ((|start| <= |bare| && SameIgnoringCase(bare[..|start|], start))
          || exists b <- names :: SameIgnoringCase(bare, b))
  }

  ghost predicate BlockedHeader(name: string) {
    AmongFolded(name, "x-forwarded-", BLOCKED_HEADERS)
  }

  ghost predicate HeaderPasses(policy: Policy, name: string) {
    !BlockedHeader(name) && Names(policy.allowedRequestHeaders, name)
  }

  ghost predicate SomePrefixAdmits(policy: Policy, path: string) {
    exists i | 0 <= i < |policy.allowedRequestPathPrefixes| :: Admits(policy.allowedRequestPathPrefixes[i], path)
  }

  ghost predicate SomeKeyDenied(policy: Policy, keys: seq<string>) {
    exists i | 0 <= i < |keys| :: Names(policy.deniedQueryKeys, keys[i])
  }

  /** The first header that does not pass. */
  ghost predicate FirstBadHeader(policy: Policy, names: seq<string>, k: nat) {
    && k < |names| && !HeaderPasses(policy, names[k])
    && forall i | 0 <= i < k :: HeaderPasses(policy, names[i])
  }

  ghost function HeaderDenial(name: string): Denial {
    if BlockedHeader(name) then RequestHeaderBlocked else RequestHeaderNotAllowed
  }

  lemma ContainsFoldIs(items: seq<string>, want: string)
    ensures ContainsFold(items, want) <==> Names(items, want)
  {
    forall i | 0 <= i < |items| ensures EqFold(items[i], want) <==> SameIgnoringCase(items[i], want) {
      EqFoldIs(items[i], want);
    }
  }

  predicate NoUpper(name: string) {
    forall i | 0 <= i < |name| :: !IsUpper(name[i])
  }

  lemma BlockedHaveNoUpper()
    ensures NoUpper("x-forwarded-") && forall blocked <- BLOCKED_HEADERS :: NoUpper(blocked)
  {
  }

  lemma LowerMeets(name: string, lower: string)
    requires NoUpper(lower)
    ensures Lower(name) == lower <==> SameIgnoringCase(name, lower)
  {
    LowerIs(name, lower);
  }

  lemma AmongIs(name: string, start: string, names: set<string>)
    requires NoUpper(start) && forall b <- names :: NoUpper(b)
    ensures Among(Lower(Trim(name)), start, names) <==> AmongFolded(name, start, names)
  {
    hide IsTrimmed, Trim, NoUpper;
    var bare := Trim(name);
    TrimIs(name, bare);
    forall other ensures IsTrimmed(name, other) <==> other == bare {
      TrimIs(name, other);
    }
    if |start| <= |bare| {
      LowerMeets(bare[..|start|], start);
      assert Lower(bare)[..|start|] == Lower(bare[..|start|]);
    }
    hide Lower, SameIgnoringCase;
    forall b <- names ensures SameIgnoringCase(bare, b) <==> Lower(bare) == b {
      LowerMeets(bare, b);
    }
  }

  lemma HeaderBlockedIs(name: string)
    ensures HeaderBlocked(name) <==> BlockedHeader(name)
  {
    hide Among, AmongFolded, Trim, NoUpper, Lower;
    BlockedHaveNoUpper();
    AmongIs(name, "x-forwarded-", BLOCKED_HEADERS);
  }

  lemma PathMatchesPrefixIs(path: string, prefix: string)
    ensures PathMatchesPrefix(path, prefix) <==> Admits(prefix, path)
  {
    var stem := TrimSlashes(prefix);
    TrimSlashesIs(prefix);
    if StartsWith(path, stem) && StartsWith(path[|stem|..], "/") {
      assert Continues(path, stem, path[|stem| + 1..]);
    }
    if other, rest :| IsStem(prefix, other) && Continues(path, other, rest) {
      assert |other| == |stem| && other == prefix[..|stem|] == stem;
      assert path[..|stem|] == stem && path[|stem|..] == "/" + rest;
    }
  }

  lemma {:induction false} FirstHeaderDecides(policy: Policy, names: seq<string>)
    ensures CheckHeaders(policy, names).Ok? <==> forall i | 0 <= i < |names| :: HeaderPasses(policy, names[i])
    ensures CheckHeaders(policy, names).Err? ==>
              exists k: nat :: FirstBadHeader(policy, names, k)
                && CheckHeaders(policy, names).error == HeaderDenial(names[k])
  {
    hide HeaderBlocked, BlockedHeader, ContainsFold, Names;
    if names != [] {
      HeaderBlockedIs(names[0]);
      ContainsFoldIs(policy.allowedRequestHeaders, names[0]);
      if HeaderPasses(policy, names[0]) {
        var rest := names[1..];
        FirstHeaderDecides(policy, rest);
        assert forall i | 1 <= i < |names| :: names[i] == rest[i - 1];
        if CheckHeaders(policy, rest).Err? {
          var k: nat :| FirstBadHeader(policy, rest, k) && CheckHeaders(policy, rest).error == HeaderDenial(rest[k]);
          assert FirstBadHeader(policy, names, k + 1);
        }
      } else {
        assert FirstBadHeader(policy, names, 0);
      }
    }
  }

  /** What a call may be, and which answer a refused one gets: the denial of the first check that
      fails, and among headers that of the first header. */
  lemma BoundaryIff(policy: Policy, call: Call)
    ensures var r := ValidatePolicyBoundary(policy, call);
            var method_ := Names(policy.allowedMethods, call.method_);
            var path := SomePrefixAdmits(policy, call.requestPath);
            var key := SomeKeyDenied(policy, call.queryKeys);
            && (r.Ok? <==> method_ && path && !key
                           && forall i | 0 <= i < |call.headerNames| :: HeaderPasses(policy, call.headerNames[i]))
            && (r == Err(MethodNotAllowed) <==> !method_)
            && (r == Err(RequestPathNotAllowed) <==> method_ && !path)
            && (r == Err(QueryKeyDenied) <==> method_ && path && key)
            && (r.Err? && method_ && path && !key ==>
                  exists k: nat :: FirstBadHeader(policy, call.headerNames, k)
                    && r.error == HeaderDenial(call.headerNames[k]))
  {
    hide PathMatchesPrefix, Admits, ContainsFold, Names, BlockedHeader, HeaderBlocked, HeaderPasses, CheckHeaders;
    ContainsFoldIs(policy.allowedMethods, call.method_);
    forall i | 0 <= i < |policy.allowedRequestPathPrefixes|
      ensures PathMatchesPrefix(call.requestPath, policy.allowedRequestPathPrefixes[i])
              <==> Admits(policy.allowedRequestPathPrefixes[i], call.requestPath)
    {
      PathMatchesPrefixIs(call.requestPath, policy.allowedRequestPathPrefixes[i]);
    }
    forall i | 0 <= i < |call.queryKeys|
      ensures ContainsFold(policy.deniedQueryKeys, call.queryKeys[i])
              <==> Names(policy.deniedQueryKeys, call.queryKeys[i])
    {
      ContainsFoldIs(policy.deniedQueryKeys, call.queryKeys[i]);
    }
    FirstHeaderDecides(policy, call.headerNames);
    HeaderErrors(policy, call.headerNames);
  }

  lemma {:induction false} HeaderErrors(policy: Policy, names: seq<string>)
    ensures CheckHeaders(policy, names).Err? ==>
              CheckHeaders(policy, names).error in {RequestHeaderBlocked, RequestHeaderNotAllowed}
  {
    if names != [] {
      HeaderErrors(policy, names[1..]);
    }
  }

  /** In every reachable store: a call that passes the boundary of a live HTTP credential names none
      of its secret headers, so the override check never has anything to refuse. */
  lemma BoundaryProtectsSecretHeaders(rules: Rules, ops: seq<Op>, id: nat, call: Call)
    ensures id < |Run(rules, ops).rows| ==>
              var row := Run(rules, ops).rows[id];
              !row.deleted && row.category == Http && ValidatePolicyBoundary(row.policy, call).Ok? ==>
                && row.secret.Some? && row.secret.value.secret.HttpSecret?
                && !CallerOverridesSecretHeader(HeaderNames(row.secret.value.secret.headers), call)
  {
    hide Run, HeaderBlocked, EqFold, PathMatchesPrefix, ValidatePolicyBoundary;
    SecretHeadersNeverAllowed(rules, ops, id);
    if id < |Run(rules, ops).rows| {
      var row := Run(rules, ops).rows[id];
      if !row.deleted && row.category == Http && ValidatePolicyBoundary(row.policy, call).Ok? {
        PassedCallNamesNoSecret(row.policy, row.secret.value.secret, call);
      }
    }
  }

  lemma PassedCallNamesNoSecret(policy: Policy, secret: Secret, call: Call)
    requires secret.HttpSecret? && ValidatePolicyBoundary(policy, call).Ok?
    requires forall i, j | 0 <= i < |policy.allowedRequestHeaders| && 0 <= j < |secret.headers| ::
               !EqFold(policy.allowedRequestHeaders[i], secret.headers[j].name)
    ensures !CallerOverridesSecretHeader(HeaderNames(secret.headers), call)
  {
    hide HeaderBlocked, EqFold, PathMatchesPrefix;
    CheckHeadersIff(policy, call.headerNames);
    var names := HeaderNames(secret.headers);
    forall i, j | 0 <= i < |names| && 0 <= j < |call.headerNames|
      ensures !EqFold(call.headerNames[j], names[i])
    {
      var k :| 0 <= k < |policy.allowedRequestHeaders|
               && EqFold(policy.allowedRequestHeaders[k], call.headerNames[j]);
      assert names[i] == secret.headers[i].name;
      FoldTransitive(policy.allowedRequestHeaders[k], call.headerNames[j], names[i]);
    }
  }

  lemma FoldTransitive(a: string, b: string, c: string)
    requires EqFold(a, b)
    ensures EqFold(b, c) ==> EqFold(a, c)
  {
  }
}
