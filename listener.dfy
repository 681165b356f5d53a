/**
 * The kernel event listener (src/EventListener/CacheListener.php). Before a
 * request, after controller resolution and after the response, it decides
 * whether caching applies (`check`), derives the key from the route and the
 * request's parameters, and reads, deletes or writes that key in its store.
 *
 * The chained cache adapter is a map from key to entry. Reflection and the
 * annotation reader are one lookup from (class, method) to what they find;
 * `class_exists` and SHA-512 are function values the model knows nothing about.
 */
module Listener {
  import opened Wrappers
  import opened PhpStrings
  import opened PhpArrays
  import opened Annotation
  import Extension

  const CACHE_HEADER := "PS-CACHE"
  const DISABLE_CACHE := "PS-CACHE-DISABLE"

  /** A response; Symfony counts the 2xx statuses as successful. */
  datatype Response = Response(status: int, content: string)
  {
    predicate IsSuccessful()
    {
      200 <= status < 300
    }
  }

  /** The callable the kernel runs: the routed action, or a closure that returns a cached response as it is. */
  datatype Controller = Action(name: string) | Replay(cached: Response)

  /**
   * What the listener reads from a kernel event and its request. `headers`
   * is the header bag: names lower-cased, each holding its first value.
   * `response` is absent on the controller event; `controller` is what the
   * kernel will call once the controller event is over.
   */
  datatype Event = Event(
    isMasterRequest: bool,
    response: Option<Response>,
    controllerAttribute: string,
    route: string,
    routeParams: Entries,
    body: Entries,
    headers: map<string, string>,
    controller: Controller)

  /** The `@Cache` settings on a controller method: `expires` and `attributes`. */
  datatype CacheSettings = CacheSettings(expires: Option<int>, attributes: seq<string>)

  /** What reflection and the annotation reader find for a (class, method) pair. */
  datatype MethodLookup = NoSuchMethod | NotAnnotated | Annotated(settings: CacheSettings)

  type Reader = (string, string) -> MethodLookup

  /** The PHP functions the listener calls and the model does not see into. */
  datatype Php = Php(classExists: string -> bool, sha512: string -> string)

  /** A stored response and the lifetime it was saved with (`null`: the adapter's default). */
  datatype Entry = Entry(value: Response, expiresAfter: Option<int>)

  type Store = map<string, Entry>

  /** How a hook ends: normally, or with the ReflectionException of a missing method. */
  datatype Outcome = Completed | ReflectionFailure(className: string, methodName: string)

  /**
   * `getController`: the `::`-separated parts of the `_controller`
   * attribute when it has a second part, and no parts otherwise.
   */
  function GetController(controllerAttribute: string): (parts: seq<string>)
    ensures parts == [] || |parts| >= 2
    ensures parts != [] <==> Contains(controllerAttribute, "::")
    ensures parts != [] ==> Implode("::", parts) == controllerAttribute
    // the class is the text before the first `::`
    ensures parts != [] ==>
              && controllerAttribute[..|parts[0]|] == parts[0]
              && OccursAt(controllerAttribute, "::", |parts[0]|)
              && forall j: nat :: j < |parts[0]| ==> !OccursAt(controllerAttribute, "::", j)
    // the method is the text after it, up to the next `::` or the end
    ensures parts != [] ==>
              var rest := controllerAttribute[|parts[0]| + 2..];
              && |parts[1]| <= |rest| && rest[..|parts[1]|] == parts[1]
              && (|parts[1]| == |rest| || OccursAt(rest, "::", |parts[1]|))
              && forall j: nat :: j < |parts[1]| ==> !OccursAt(rest, "::", j)
  {
    var pieces := Explode("::", controllerAttribute);
    ExplodeSplitsIffContains("::", controllerAttribute);
    ImplodeExplode("::", controllerAttribute);
    ExplodeFirstPiece("::", controllerAttribute);
    ExplodeFirstCut("::", controllerAttribute);
    if |pieces| >= 2 then
      var rest := controllerAttribute[|pieces[0]| + 2..];
      ExplodeFirstPiece("::", rest);
      ExplodeFirstCut("::", rest);
      ExplodeSplitsIffContains("::", rest);
      if Contains(rest, "::") then pieces
      else
        ExplodeWithoutSeparator("::", rest);
        pieces
    else []
  }

  /**
   * `check`: caching applies only when it is enabled, the request is the
   * master request, a response present is successful, `_controller` names a
   * method with `::`, and the class before the `::` exists.
   */
  function Check(enabled: bool, php: Php, e: Event): (eligible: bool)
    ensures eligible <==>
      && enabled
      && e.isMasterRequest
      && (e.response.None? || e.response.value.IsSuccessful())
      && Contains(e.controllerAttribute, "::")
      && php.classExists(Explode("::", e.controllerAttribute)[0])
    ensures eligible ==> |GetController(e.controllerAttribute)| >= 2
  {
    if !enabled then false
    else if !e.isMasterRequest then false
    else if e.response.Some? && !e.response.value.IsSuccessful() then false
    else if GetController(e.controllerAttribute) == [] then false
    else if !php.classExists(GetController(e.controllerAttribute)[0]) then false
    else true
  }

  /** `getAnnotation`: what is found for the method named by `_controller`. */
  function GetAnnotation(reader: Reader, e: Event): (found: MethodLookup)
    requires |GetController(e.controllerAttribute)| >= 2
    ensures var parts := Explode("::", e.controllerAttribute);
            found == reader(parts[0], parts[1])
  {
    var controller := GetController(e.controllerAttribute);
    reader(controller[0], controller[1])
  }

  /** The key data every hook gives the annotation: route parameters `+` body parameters. */
  function RequestData(e: Event): (data: Entries)
    ensures forall name :: Get(data, name) == if name in Keys(e.routeParams) then Get(e.routeParams, name) else Get(e.body, name)
  {
    UnionGetAll(e.routeParams, e.body);
    Union(e.routeParams, e.body)
  }

  /** The key every hook derives: the annotation's key for the request data, prefixed by `_route`. */
  function EventKey(e: Event, settings: CacheSettings, sha512: string -> string): (key: string)
    ensures key == sha512(e.route + "_" + Implode("_", Underscored(SelectEntries(RequestData(e), settings.attributes))))
  {
    ArrayMaterial(RequestData(e), settings.attributes);
    DeriveKey(e.route, Array(RequestData(e)), settings.attributes, sha512)
  }

  /** The header bag keeps names lower-cased: this is where it keeps `PS-CACHE`. */
  const CACHE_HEADER_NAME := "ps-cache"

  /**
   * ASCII upper-case letters lowered, everything else kept: enough for the
   * one name looked up here, `PS-CACHE` (the header bag also maps `_` to `-`).
   */
  function LowerAscii(s: string): (r: string)
    ensures |r| == |s|
    ensures forall k :: 0 <= k < |s| ==> r[k] == if 'A' <= s[k] <= 'Z' then (s[k] as int + 32) as char else s[k]
  {
    if s == [] then "" else [if 'A' <= s[0] <= 'Z' then (s[0] as int + 32) as char else s[0]] + LowerAscii(s[1..])
  }

  /** `headers->get('PS-CACHE')` looks under the lower-cased name. */
  lemma CacheHeaderNameIsLowered()
    ensures LowerAscii(CACHE_HEADER) == CACHE_HEADER_NAME
  {
    var lowered := LowerAscii(CACHE_HEADER);
    assert |lowered| == |CACHE_HEADER_NAME|;
    forall k | 0 <= k < |lowered| ensures lowered[k] == CACHE_HEADER_NAME[k] {
    }
  }

  /** `array_map('trim', explode(',', $value))`. */
  function HeaderTokens(value: string): (tokens: seq<string>)
    ensures |tokens| == |Explode(",", value)|
    ensures forall i :: 0 <= i < |tokens| ==> tokens[i] == Trim(Explode(",", value)[i])
  {
    var parts := Explode(",", value);
    seq(|parts|, i requires 0 <= i < |parts| => Trim(parts[i]))
  }

  /** The request carries `PS-CACHE` with a `PS-CACHE-DISABLE` token (compared exactly). */
  predicate DisableRequested(e: Event): (requested: bool)
    ensures requested <==>
      && CACHE_HEADER_NAME in e.headers
      && exists i :: 0 <= i < |Explode(",", e.headers[CACHE_HEADER_NAME])|
                     && Trim(Explode(",", e.headers[CACHE_HEADER_NAME])[i]) == DISABLE_CACHE
  {
    if CACHE_HEADER_NAME in e.headers then
      HeaderTokensMention(e.headers[CACHE_HEADER_NAME], DISABLE_CACHE);
      DISABLE_CACHE in HeaderTokens(e.headers[CACHE_HEADER_NAME])
    else false
  }

  /** A token is among the header's tokens exactly when some comma-separated part trims to it. */
  lemma {:induction false} HeaderTokensMention(value: string, token: string)
    ensures token in HeaderTokens(value) ==>
              exists i :: 0 <= i < |Explode(",", value)| && Trim(Explode(",", value)[i]) == token
    ensures (exists i :: 0 <= i < |Explode(",", value)| && Trim(Explode(",", value)[i]) == token) ==>
              token in HeaderTokens(value)
  {
    TrimmedMention(Explode(",", value), HeaderTokens(value), token);
  }

  lemma {:induction false} TrimmedMention(parts: seq<string>, tokens: seq<string>, token: string)
    requires |tokens| == |parts|
    requires forall i :: 0 <= i < |tokens| ==> tokens[i] == Trim(parts[i])
    ensures token in tokens <==> exists i :: 0 <= i < |parts| && Trim(parts[i]) == token
  {
    if token in tokens {
      var i :| 0 <= i < |tokens| && tokens[i] == token;
      assert Trim(parts[i]) == token;
    }
  }

  /**
   * The outcome of `onKernelController` and the controller the kernel then
   * runs. The controller event carries no response.
   */
  function ControllerStep(enabled: bool, reader: Reader, php: Php, store: Store, e: Event): (Outcome, Controller)
    requires e.response.None?
  {
    if !Check(enabled, php, e) then (Completed, e.controller)
    else
      var controller := GetController(e.controllerAttribute);
      match GetAnnotation(reader, e)
      case NoSuchMethod => (ReflectionFailure(controller[0], controller[1]), e.controller)
      case NotAnnotated => (Completed, e.controller)
      case Annotated(settings) =>
        var key := EventKey(e, settings, php.sha512);
        if key in store then (Completed, Replay(store[key].value)) else (Completed, e.controller)
  }

  /** The outcome of `onKernelRequest` and the store it leaves. */
  function RequestStep(enabled: bool, reader: Reader, php: Php, store: Store, e: Event): (Outcome, Store)
  {
    if !Check(enabled, php, e) || !DisableRequested(e) then (Completed, store)
    else
      var controller := GetController(e.controllerAttribute);
      match GetAnnotation(reader, e)
      case NoSuchMethod => (ReflectionFailure(controller[0], controller[1]), store)
      case NotAnnotated => (Completed, store)
      case Annotated(settings) => (Completed, store - {EventKey(e, settings, php.sha512)})
  }

  /** The outcome of `onKernelResponse` and the store it leaves. */
  function ResponseStep(enabled: bool, reader: Reader, php: Php, store: Store, e: Event): (Outcome, Store)
    requires e.response.Some?
  {
    if !Check(enabled, php, e) then (Completed, store)
    else
      var controller := GetController(e.controllerAttribute);
      match GetAnnotation(reader, e)
      case NoSuchMethod => (ReflectionFailure(controller[0], controller[1]), store)
      case NotAnnotated => (Completed, store)
      case Annotated(settings) =>
        var key := EventKey(e, settings, php.sha512);
        if key in store then (Completed, store)
        else (Completed, store[key := Entry(e.response.value, settings.expires)])
  }

  class CacheListener {
    const enabled: bool
    const reader: Reader
    const php: Php
    var client: Store

    /**
     * `enabled` is the `phpsed.cache.enabled` parameter, read for its truth
     * value; `contents` is what the configured adapters already hold.
     */
    constructor(enabled: Extension.Value, reader: Reader, php: Php, contents: Store)
      ensures this.enabled == Extension.Truthy(enabled)
      ensures this.reader == reader && this.php == php && client == contents
    {
      this.enabled := Extension.Truthy(enabled);
      this.reader := reader;
      this.php := php;
      client := contents;
    }

    /** `getCache`: the stored response for `key`, if there is one. */
    function GetCache(key: string): (cached: Option<Response>)
      reads this
      ensures cached.Some? <==> key in client
      ensures cached.Some? ==> cached.value == client[key].value
    {
      if key in client then Some(client[key].value) else None
    }

    /** `setCache`: stores `value` under `key` with the given lifetime. */
    method SetCache(key: string, value: Response, expires: Option<int>)
      modifies this
      ensures client == old(client)[key := Entry(value, expires)]
    {
      client := client[key := Entry(value, expires)];
    }

    /** A fresh annotation object with the request data set, as each hook prepares it. */
    method PrepareAnnotation(settings: CacheSettings, e: Event) returns (annotation: Cache)
      ensures fresh(annotation)
      ensures annotation.GetKey(e.route, php.sha512) == EventKey(e, settings, php.sha512)
      ensures annotation.GetExpires() == settings.expires
    {
      annotation := new Cache(settings.expires, settings.attributes);
      annotation.SetData(Array(Union(e.routeParams, e.body)));
    }

    /**
     * `onKernelController`: on a cache hit the controller becomes one that
     * returns the cached response; the store is only read.
     */
    method OnKernelController(e: Event) returns (outcome: Outcome, after: Event)
      requires e.response.None?
      ensures (outcome, after.controller) == ControllerStep(enabled, reader, php, client, e)
      ensures after == e.(controller := after.controller)
    {
      outcome, after := Completed, e;
      if !Check(enabled, php, e) {
        return;
      }
      // `onKernelController` also returns early when `client` is falsy, which
      // cannot happen: the chain adapter is always an object.
      var controller := GetController(e.controllerAttribute);
      match GetAnnotation(reader, e)
      case NoSuchMethod =>
        outcome := ReflectionFailure(controller[0], controller[1]);
      case NotAnnotated =>
      case Annotated(settings) =>
        var annotation := PrepareAnnotation(settings, e);
        var response := GetCache(annotation.GetKey(e.route, php.sha512));
        if response.Some? {
          after := e.(controller := Replay(response.value));
        }
    }

    /** `onKernelRequest`: a `PS-CACHE-DISABLE` token deletes the request's entry. */
    method OnKernelRequest(e: Event) returns (outcome: Outcome)
      modifies this
      ensures (outcome, client) == RequestStep(enabled, reader, php, old(client), e)
    {
      outcome := Completed;
      if !Check(enabled, php, e) {
        return;
      }
      if CACHE_HEADER_NAME in e.headers {
        var headers := HeaderTokens(e.headers[CACHE_HEADER_NAME]);
        if DISABLE_CACHE in headers {
          var controller := GetController(e.controllerAttribute);
          match GetAnnotation(reader, e)
          case NoSuchMethod =>
            outcome := ReflectionFailure(controller[0], controller[1]);
          case NotAnnotated =>
          case Annotated(settings) =>
            var annotation := PrepareAnnotation(settings, e);
            var key := annotation.GetKey(e.route, php.sha512);
            client := client - {key};
        }
      }
    }

    /** `onKernelResponse`: stores the response under the request's key unless an entry is there. */
    method OnKernelResponse(e: Event) returns (outcome: Outcome)
      requires e.response.Some?
      modifies this
      ensures (outcome, client) == ResponseStep(enabled, reader, php, old(client), e)
    {
      outcome := Completed;
      if !Check(enabled, php, e) {
        return;
      }
      var controller := GetController(e.controllerAttribute);
      match GetAnnotation(reader, e)
      case NoSuchMethod =>
        outcome := ReflectionFailure(controller[0], controller[1]);
      case NotAnnotated =>
      case Annotated(settings) =>
        var annotation := PrepareAnnotation(settings, e);
        var key := annotation.GetKey(e.route, php.sha512);
        var cache := GetCache(key);
        if cache.None? {
          SetCache(key, e.response.value, annotation.GetExpires());
        }
    }
  }
}
