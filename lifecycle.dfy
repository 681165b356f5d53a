/**
 * What the three hooks of the listener promise, alone and in sequence:
 * a closed gate changes nothing, the hooks agree on the key, the response
 * hook writes once, a stored response is served back, and the disable
 * header forces a fresh entry.
 */
module Lifecycle {
  import opened Wrappers
  import opened PhpStrings
  import opened PhpArrays
  import opened Annotation
  import opened Listener

  /** When `check` fails no hook touches the store or the controller, and none fails. */
  lemma ClosedGateChangesNothing(enabled: bool, reader: Reader, php: Php, store: Store, e: Event)
    requires !Check(enabled, php, e)
    ensures e.response.None? ==> ControllerStep(enabled, reader, php, store, e) == (Completed, e.controller)
    ensures RequestStep(enabled, reader, php, store, e) == (Completed, store)
    ensures e.response.Some? ==> ResponseStep(enabled, reader, php, store, e) == (Completed, store)
  {
  }

  /**
   * The hooks key a request by its route, route parameters and body only;
   * in the key data a route parameter wins over a body parameter of the same name.
   */
  lemma KeyDependsOnRequestOnly(e: Event, other: Event, settings: CacheSettings, sha512: string -> string, name: string)
    requires e.route == other.route && e.routeParams == other.routeParams && e.body == other.body
    ensures EventKey(e, settings, sha512) == EventKey(other, settings, sha512)
    ensures Get(RequestData(e), name) == if name in Keys(e.routeParams) then Get(e.routeParams, name) else Get(e.body, name)
  {
    UnionGet(e.routeParams, e.body, name);
  }

  /** Route parameters come first in the key data, then the body parameters they do not shadow, each in order. */
  lemma RequestDataOrder(e: Event)
    requires DistinctKeys(e.routeParams) && DistinctKeys(e.body)
    ensures RequestData(e)[..|e.routeParams|] == e.routeParams
    ensures RequestData(e)[|e.routeParams|..] == WithoutKeys(e.body, Keys(e.routeParams))
    ensures DistinctKeys(RequestData(e))
    ensures Keys(RequestData(e)) == Keys(e.routeParams) + Keys(e.body)
  {
    UnionKeys(e.routeParams, e.body);
  }

  /** On a hit the controller returns the stored response; on a miss it stays as it was. */
  lemma ControllerServesHits(enabled: bool, reader: Reader, php: Php, store: Store, e: Event)
    requires e.response.None?
    requires Check(enabled, php, e) && GetAnnotation(reader, e).Annotated?
    ensures var key := EventKey(e, GetAnnotation(reader, e).settings, php.sha512);
            ControllerStep(enabled, reader, php, store, e)
              == (Completed, if key in store then Replay(store[key].value) else e.controller)
  {
  }

  /**
   * The request hook deletes exactly the request's key, and only when the
   * disable token is present and the method is annotated.
   */
  lemma RequestDeletesOnlyOnDisable(enabled: bool, reader: Reader, php: Php, store: Store, e: Event)
    requires RequestStep(enabled, reader, php, store, e).1 != store
    ensures Check(enabled, php, e) && DisableRequested(e) && GetAnnotation(reader, e).Annotated?
    ensures var key := EventKey(e, GetAnnotation(reader, e).settings, php.sha512);
            key in store && RequestStep(enabled, reader, php, store, e).1 == store - {key}
  {
  }

  /** An existing entry is never overwritten by the response hook. */
  lemma ResponseWritesOnce(enabled: bool, reader: Reader, php: Php, store: Store, e: Event)
    requires e.response.Some?
    requires Check(enabled, php, e) && GetAnnotation(reader, e).Annotated?
    requires EventKey(e, GetAnnotation(reader, e).settings, php.sha512) in store
    ensures ResponseStep(enabled, reader, php, store, e) == (Completed, store)
  {
  }

  /**
   * After an annotated response the key holds its earlier entry or the
   * response with the annotation's lifetime; no other key changes.
   */
  lemma ResponseTouchesOnlyItsKey(enabled: bool, reader: Reader, php: Php, store: Store, e: Event, other: string)
    requires e.response.Some?
    requires Check(enabled, php, e) && GetAnnotation(reader, e).Annotated?
    ensures var settings := GetAnnotation(reader, e).settings;
            var key := EventKey(e, settings, php.sha512);
            var after := ResponseStep(enabled, reader, php, store, e).1;
            && key in after
            && after[key] == (if key in store then store[key] else Entry(e.response.value, settings.expires))
            && after.Keys == store.Keys + {key}
            && (other != key && other in store ==> after[other] == store[other])
  {
  }

  /**
   * Read after write: a response stored by the response hook is what a later
   * controller hook for the same route, parameters and body serves, unless an
   * entry was already there, in which case that entry is served.
   */
  lemma ReadAfterWrite(enabled: bool, reader: Reader, php: Php, store: Store, written: Event, later: Event)
    requires written.response.Some?
    requires Check(enabled, php, written) && GetAnnotation(reader, written).Annotated?
    requires later.isMasterRequest && later.response.None?
    requires later.controllerAttribute == written.controllerAttribute
    requires later.route == written.route && later.routeParams == written.routeParams && later.body == written.body
    ensures var key := EventKey(written, GetAnnotation(reader, written).settings, php.sha512);
            var after := ResponseStep(enabled, reader, php, store, written).1;
            ControllerStep(enabled, reader, php, after, later)
              == (Completed, Replay(if key in store then store[key].value else written.response.value))
  {
    assert Check(enabled, php, later);
    assert GetAnnotation(reader, later) == GetAnnotation(reader, written);
    var settings := GetAnnotation(reader, written).settings;
    KeyDependsOnRequestOnly(written, later, settings, php.sha512, "");
  }

  /**
   * The disable header forces a refresh: after the request hook deletes the
   * entry, the response hook of the same request stores its new response.
   */
  lemma DisableForcesRefresh(enabled: bool, reader: Reader, php: Php, store: Store, request: Event, response: Event)
    requires Check(enabled, php, request) && DisableRequested(request) && GetAnnotation(reader, request).Annotated?
    requires response.response.Some? && Check(enabled, php, response)
    requires response.controllerAttribute == request.controllerAttribute
    requires response.route == request.route && response.routeParams == request.routeParams && response.body == request.body
    ensures var settings := GetAnnotation(reader, request).settings;
            var key := EventKey(request, settings, php.sha512);
            var cleared := RequestStep(enabled, reader, php, store, request).1;
            var after := ResponseStep(enabled, reader, php, cleared, response).1;
            key !in cleared && key in after && after[key] == Entry(response.response.value, settings.expires)
  {
    var settings := GetAnnotation(reader, request).settings;
    assert GetAnnotation(reader, response) == GetAnnotation(reader, request);
    KeyDependsOnRequestOnly(request, response, settings, php.sha512, "");
  }

  /** A value without commas is a single token, trimmed. */
  lemma SingleToken(value: string)
    requires ',' !in value
    ensures HeaderTokens(value) == [Trim(value)]
  {
    NotContainsChar(value, ',');
    ExplodeWithoutSeparator(",", value);
  }

  /** A comma-free piece between two commas is one of the tokens, trimmed. */
  lemma TokenBetweenCommas(before: string, token: string, after: string)
    requires ',' !in token
    ensures Trim(token) in HeaderTokens(before + "," + token + "," + after)
  {
    NotContainsChar(token, ',');
    ExplodeWithoutSeparator(",", token);
    ExplodeAround(",", token, after);
    ExplodeAround(",", before, token + "," + after);
    assert before + "," + token + "," + after == before + "," + (token + "," + after);
    var i := |Explode(",", before)|;
    assert Explode(",", before + "," + (token + "," + after))[i] == token;
    assert HeaderTokens(before + "," + (token + "," + after))[i] == Trim(token);
  }

  /** A comma-free first piece is the first token, trimmed. */
  lemma TokenFirst(token: string, after: string)
    requires ',' !in token
    ensures HeaderTokens(token + "," + after)[0] == Trim(token)
  {
    NotContainsChar(token, ',');
    ExplodeWithoutSeparator(",", token);
    ExplodeAround(",", token, after);
    assert Explode(",", token + "," + after)[0] == token;
  }

  /** A comma-free last piece is the last token, trimmed. */
  lemma TokenLast(before: string, token: string)
    requires ',' !in token
    ensures var tokens := HeaderTokens(before + "," + token);
            tokens[|tokens| - 1] == Trim(token)
  {
    NotContainsChar(token, ',');
    ExplodeWithoutSeparator(",", token);
    ExplodeAround(",", before, token);
    var parts := Explode(",", before + "," + token);
    assert parts[|parts| - 1] == token;
  }

  /** Blank padding holds no comma. */
  lemma PaddedHasNoComma(lead: string, core: string, trail: string)
    requires forall k :: 0 <= k < |lead| ==> IsTrimmable(lead[k])
    requires forall k :: 0 <= k < |trail| ==> IsTrimmable(trail[k])
    requires ',' !in core
    ensures ',' !in lead + core + trail
  {
    var s := lead + core + trail;
    forall k | 0 <= k < |s| ensures s[k] != ',' {
      if k < |lead| {
        assert s[k] == lead[k];
      } else if k < |lead| + |core| {
        assert s[k] == core[k - |lead|];
      } else {
        assert s[k] == trail[k - |lead| - |core|];
      }
    }
  }

  /** A value without commas or padding is its own single token. */
  lemma UntrimmedSingleToken(value: string)
    requires ',' !in value && Untrimmable(value)
    ensures HeaderTokens(value) == [value]
  {
    SingleToken(value);
    TrimKeepsUntrimmable(value);
  }

  /** A header whose whole value is `PS-CACHE-DISABLE` disables the cache. */
  lemma DisableHeaderAlone(e: Event)
    requires CACHE_HEADER_NAME in e.headers && e.headers[CACHE_HEADER_NAME] == DISABLE_CACHE
    ensures DisableRequested(e)
  {
    assert ',' !in DISABLE_CACHE && Untrimmable(DISABLE_CACHE);
    UntrimmedSingleToken(DISABLE_CACHE);
  }

  /** A padded comma-free token between commas is found, padding removed. */
  lemma PaddedTokenFound(before: string, after: string, lead: string, core: string, trail: string)
    requires forall k :: 0 <= k < |lead| ==> IsTrimmable(lead[k])
    requires forall k :: 0 <= k < |trail| ==> IsTrimmable(trail[k])
    requires ',' !in core && Untrimmable(core)
    ensures core in HeaderTokens(before + "," + lead + core + trail + "," + after)
  {
    var token := lead + core + trail;
    PaddedHasNoComma(lead, core, trail);
    TokenBetweenCommas(before, token, after);
    TrimStripsPadding(lead, core, trail);
    RegroupToken(before, after, lead, core, trail);
  }

  lemma RegroupToken(before: string, after: string, lead: string, core: string, trail: string)
    ensures before + "," + lead + core + trail + "," + after == before + "," + (lead + core + trail) + "," + after
  {
  }

  /**
   * The token is found between other comma-separated tokens and with
   * blanks around it, as `trim` removes them.
   */
  lemma DisableTokenAmongOthers(before: string, after: string, lead: string, trail: string)
    requires forall k :: 0 <= k < |lead| ==> IsTrimmable(lead[k])
    requires forall k :: 0 <= k < |trail| ==> IsTrimmable(trail[k])
    ensures DISABLE_CACHE in HeaderTokens(before + "," + lead + DISABLE_CACHE + trail + "," + after)
  {
    assert ',' !in DISABLE_CACHE;
    assert Untrimmable(DISABLE_CACHE);
    PaddedTokenFound(before, after, lead, DISABLE_CACHE, trail);
  }

  /** The token is found first in a list, padded: `PS-CACHE-DISABLE , x`. */
  lemma DisableTokenFirst(after: string, lead: string, trail: string)
    requires forall k :: 0 <= k < |lead| ==> IsTrimmable(lead[k])
    requires forall k :: 0 <= k < |trail| ==> IsTrimmable(trail[k])
    ensures HeaderTokens(lead + DISABLE_CACHE + trail + "," + after)[0] == DISABLE_CACHE
  {
    assert ',' !in DISABLE_CACHE && Untrimmable(DISABLE_CACHE);
    PaddedHasNoComma(lead, DISABLE_CACHE, trail);
    TokenFirst(lead + DISABLE_CACHE + trail, after);
    TrimStripsPadding(lead, DISABLE_CACHE, trail);
  }

  /** The token is found last in a list, padded: `x, PS-CACHE-DISABLE`. */
  lemma DisableTokenLast(before: string, lead: string, trail: string)
    requires forall k :: 0 <= k < |lead| ==> IsTrimmable(lead[k])
    requires forall k :: 0 <= k < |trail| ==> IsTrimmable(trail[k])
    ensures DISABLE_CACHE in HeaderTokens(before + "," + lead + DISABLE_CACHE + trail)
  {
    assert ',' !in DISABLE_CACHE && Untrimmable(DISABLE_CACHE);
    PaddedTokenLast(before, lead, DISABLE_CACHE, trail);
  }

  /** A padded comma-free last piece is found, padding removed. */
  lemma PaddedTokenLast(before: string, lead: string, core: string, trail: string)
    requires forall k :: 0 <= k < |lead| ==> IsTrimmable(lead[k])
    requires forall k :: 0 <= k < |trail| ==> IsTrimmable(trail[k])
    requires ',' !in core && Untrimmable(core)
    ensures core in HeaderTokens(before + "," + lead + core + trail)
  {
    PaddedHasNoComma(lead, core, trail);
    TokenLast(before, lead + core + trail);
    TrimStripsPadding(lead, core, trail);
    RegroupLast(before, lead, core, trail);
  }

  lemma RegroupLast(before: string, lead: string, core: string, trail: string)
    ensures before + "," + lead + core + trail == before + "," + (lead + core + trail)
  {
  }

  /** The token is compared exactly: a lower-case `ps-cache-disable` does not disable the cache. */
  lemma DisableTokenIsCaseSensitive(e: Event)
    requires CACHE_HEADER_NAME in e.headers && e.headers[CACHE_HEADER_NAME] == "ps-cache-disable"
    ensures !DisableRequested(e)
  {
    var value := "ps-cache-disable";
    assert ',' !in value && Untrimmable(value);
    UntrimmedSingleToken(value);
    assert value[0] != DISABLE_CACHE[0];
  }
}
