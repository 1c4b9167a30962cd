/** The service worker: which requests it answers and how (cache first,
    network first, or not at all), when a response is stored, the install
    pre-cache of the app shell, the clean-up of old caches on activation,
    and the background-sync relay. Fetch outcomes are inputs: a network
    error is `None`. Cache keys are same-origin request URLs. */
module ServiceWorker {
  import opened Common

  const CacheName := "synplix-v2"
  const StaticPrefix := "/_next/static/"
  const Manifest := "/manifest.json"
  const Root := "/"

  /** The app shell pre-cached on install. */
  const ShellUrls: seq<string> := ["/", "/dashboard", "/invoices", "/transactions", "/attendance",
                                   "/inventory", "/expenses", "/settings", "/manifest.json", "/icon.svg"]

  /** The file endings of `/\.(png|jpg|jpeg|svg|webp|ico|json|woff2?)$/`. */
  const AssetExtensions: seq<string> := ["png", "jpg", "jpeg", "svg", "webp", "ico", "json", "woff", "woff2"]

  datatype Request = Request(sameOrigin: bool, url: string, path: string, navigate: bool)

  datatype Response = Response(ok: bool, body: string)

  /** One named cache of the cache storage; the storage keeps creation order. */
  datatype Cache = Cache(name: string, entries: map<string, Response>)

  type Storage = seq<Cache>

  // ---------------------------------------------------------------------------
  // Routing
  // ---------------------------------------------------------------------------

  datatype Route = Foreign | NextStatic | PublicAsset | Navigation | Passthrough

  predicate HasAssetExtension(path: string) {
    exists i :: 0 <= i < |AssetExtensions| && EndsWith(path, "." + AssetExtensions[i])
  }

  /** The fetch listener's tests, in their order. */
  function RouteOf(req: Request): Route {
    if !req.sameOrigin then Foreign
    else if StartsWith(req.path, StaticPrefix) then NextStatic
    else if HasAssetExtension(req.path) || req.path == Manifest then PublicAsset
    else if req.navigate then Navigation
    else Passthrough
  }

  /** Each route in terms of the request alone: other origins are never
      answered; the build-asset prefix wins over every other rule; the file
      endings (and the manifest) come next, then navigations; the rest is
      left to the network. */
  lemma RouteSpec(req: Request)
    ensures RouteOf(req) == Foreign <==> !req.sameOrigin
    ensures RouteOf(req) == NextStatic <==> req.sameOrigin && StartsWith(req.path, StaticPrefix)
    ensures RouteOf(req) == PublicAsset <==>
              req.sameOrigin && !StartsWith(req.path, StaticPrefix) && (HasAssetExtension(req.path) || req.path == Manifest)
    ensures RouteOf(req) == Navigation <==>
              req.sameOrigin && !StartsWith(req.path, StaticPrefix) && !HasAssetExtension(req.path)
              && req.path != Manifest && req.navigate
    ensures RouteOf(req) == Passthrough <==>
              req.sameOrigin && !StartsWith(req.path, StaticPrefix) && !HasAssetExtension(req.path)
              && req.path != Manifest && !req.navigate
  {
  }

  /** A build asset with an image ending still takes the build-asset rule,
      the manifest already matches by its ending, and an ending must be
      exact. */
  lemma RouteExamples()
    ensures RouteOf(Request(true, "/_next/static/a.png", "/_next/static/a.png", false)) == NextStatic
    ensures HasAssetExtension(Manifest)
    ensures HasAssetExtension("/fonts/a.woff2")
    ensures !HasAssetExtension("/logo.pngx")
  {
    assert StartsWith("/_next/static/a.png", StaticPrefix) by {
      assert "/_next/static/a.png"[..|StaticPrefix|] == StaticPrefix;
    }
    assert EndsWith(Manifest, "." + AssetExtensions[6]) by {
      assert Manifest[|Manifest| - 5..] == ".json";
    }
    assert EndsWith("/fonts/a.woff2", "." + AssetExtensions[8]) by {
      assert "/fonts/a.woff2"[8..] == ".woff2";
    }
    NoExtensionEndsInX("/logo.pngx");
  }

  /** A path whose last character is not one any ending ends with has none
      of the endings. */
  lemma NoExtensionEndsInX(path: string)
    requires path != [] && path[|path| - 1] == 'x'
    ensures !HasAssetExtension(path)
  {
    forall i | 0 <= i < |AssetExtensions|
      ensures !EndsWith(path, "." + AssetExtensions[i])
    {
      var e := "." + AssetExtensions[i];
      assert e[|e| - 1] != 'x';
    }
  }

  // ---------------------------------------------------------------------------
  // Cache storage
  // ---------------------------------------------------------------------------

  /** `caches.match(url)`: the entry of the first cache, in creation order,
      that holds the URL. */
  function Match(st: Storage, url: string): (r: Option<Response>)
    ensures r.None? <==> forall i :: 0 <= i < |st| ==> url !in st[i].entries
  {
    if st == [] then None
    else if url in st[0].entries then Some(st[0].entries[url])
    else Match(st[1..], url)
  }

  /** The entry for the URL in the cache of that name. */
  function Lookup(st: Storage, name: string, url: string): Option<Response> {
    if st == [] then None
    else if st[0].name == name then (if url in st[0].entries then Some(st[0].entries[url]) else None)
    else Lookup(st[1..], name, url)
  }

  /** `caches.open(CACHE_NAME).then(c => c.put(url, res))`: the cache is
      created at the end when it does not exist yet. */
  function Put(st: Storage, url: string, res: Response): (r: Storage)
    ensures |r| >= |st| && forall i :: 0 <= i < |st| ==> r[i].name == st[i].name
  {
    if st == [] then [Cache(CacheName, map[url := res])]
    else if st[0].name == CacheName then [st[0].(entries := st[0].entries[url := res])] + st[1..]
    else [st[0]] + Put(st[1..], url, res)
  }

  /** After a put, the current cache holds the response under the URL and
      every other entry of every cache is as it was. */
  lemma {:induction false} PutSpec(st: Storage, url: string, res: Response, name: string, u: string)
    ensures Lookup(Put(st, url, res), name, u) ==
            if name == CacheName && u == url then Some(res) else Lookup(st, name, u)
  {
    if st != [] && st[0].name != CacheName {
      PutSpec(st[1..], url, res, name, u);
    }
  }

  /** A URL no cache holds is found, after the put, with the stored
      response. */
  lemma {:induction false} PutThenMatch(st: Storage, url: string, res: Response)
    requires Match(st, url).None?
    ensures Match(Put(st, url, res), url) == Some(res)
  {
    if st != [] && st[0].name != CacheName {
      PutThenMatch(st[1..], url, res);
    }
  }

  // ---------------------------------------------------------------------------
  // Answering a fetch
  // ---------------------------------------------------------------------------

  /** Either the listener returns without `respondWith`, or it answers with a
      response (`None`: the page sees a network error) and leaves the
      storage as given. */
  datatype Outcome = NotAnswered | Answered(response: Option<Response>, storage: Storage)

  /** Stores a network response only when it is ok. */
  function StoreIfOk(st: Storage, url: string, res: Response): Storage {
    if res.ok then Put(st, url, res) else st
  }

  /** Cache first: the cached response, else the network's, stored when ok. */
  function CacheFirst(st: Storage, url: string, fetched: Option<Response>): Outcome {
    var cached := Match(st, url);
    if cached.Some? then Answered(cached, st)
    else if fetched.None? then Answered(None, st)
    else Answered(fetched, StoreIfOk(st, url, fetched.value))
  }

  /** Network first: the network's response, stored when ok; on a network
      error the cached response, else the cached root page. */
  function NetworkFirst(st: Storage, url: string, fetched: Option<Response>): Outcome {
    if fetched.Some? then Answered(fetched, StoreIfOk(st, url, fetched.value))
    else
      var cached := Match(st, url);
      Answered(if cached.Some? then cached else Match(st, Root), st)
  }

  function HandleFetch(req: Request, st: Storage, fetched: Option<Response>): Outcome {
    match RouteOf(req)
    case NextStatic => CacheFirst(st, req.url, fetched)
    case PublicAsset => CacheFirst(st, req.url, fetched)
    case Navigation => NetworkFirst(st, req.url, fetched)
    case _ => NotAnswered
  }

  /** Only the three caching routes are answered. The storage changes only
      to store an ok network response under the request's URL; a cached
      asset is served without using the network, and a stored asset is
      served from the cache afterwards. */
  lemma HandleFetchSpec(req: Request, st: Storage, fetched: Option<Response>)
    ensures var o := HandleFetch(req, st, fetched);
            && (o.NotAnswered? <==> RouteOf(req) in {Foreign, Passthrough})
            && (o.Answered? && o.storage != st ==>
                  fetched.Some? && fetched.value.ok && o.storage == Put(st, req.url, fetched.value))
            && (o.Answered? && RouteOf(req) != Navigation && Match(st, req.url).Some? ==>
                  o == Answered(Match(st, req.url), st))
            && (o.Answered? && RouteOf(req) != Navigation && Match(st, req.url).None? && fetched.Some? ==>
                  o.response == fetched
                  && (fetched.value.ok ==> Match(o.storage, req.url) == fetched))
  {
    if RouteOf(req) in {NextStatic, PublicAsset} && Match(st, req.url).None? && fetched.Some? && fetched.value.ok {
      PutThenMatch(st, req.url, fetched.value);
    }
  }

  /** A navigation is answered by the network whenever it answers, even with
      an error status; an ok page is stored under its URL, so that a later
      offline visit to a page no cache held before is served that page; only
      a network error falls back, first to the cached page, then to the
      cached root page. */
  lemma NavigationSpec(req: Request, st: Storage, fetched: Option<Response>)
    requires RouteOf(req) == Navigation
    ensures var o := HandleFetch(req, st, fetched);
            && o.Answered?
            && (fetched.Some? ==> o.response == fetched)
            && (fetched.Some? && fetched.value.ok ==> o.storage == Put(st, req.url, fetched.value))
            && (fetched.Some? && fetched.value.ok && Match(st, req.url).None? ==>
                  HandleFetch(req, o.storage, None) == Answered(fetched, o.storage))
            && (fetched.Some? && !fetched.value.ok ==> o.storage == st)
            && (fetched.None? ==> o.storage == st
                                  && o.response == (if Match(st, req.url).Some? then Match(st, req.url) else Match(st, Root)))
  {
    if fetched.Some? && fetched.value.ok && Match(st, req.url).None? {
      PutThenMatch(st, req.url, fetched.value);
    }
  }

  // ---------------------------------------------------------------------------
  // Install and activate
  // ---------------------------------------------------------------------------

  /** `cache.add(url)` for every URL under `allSettled`: a URL is stored when
      its fetch gave an ok response, and a failed one is skipped; the
      install itself never fails. */
  function AddAll(st: Storage, urls: seq<string>, outcomes: seq<Option<Response>>): (r: Storage)
    requires |outcomes| == |urls|
    decreases |urls|
    ensures |r| >= |st| && forall i :: 0 <= i < |st| ==> r[i].name == st[i].name
  {
    if urls == [] then st
    else
      var st' := if outcomes[0].Some? && outcomes[0].value.ok then Put(st, urls[0], outcomes[0].value) else st;
      AddAll(st', urls[1..], outcomes[1..])
  }

  /** After the pre-cache, each URL whose fetch succeeded is in the current
      cache with its response, and every other entry is as it was. */
  lemma {:induction false} AddAllSpec(st: Storage, urls: seq<string>, outcomes: seq<Option<Response>>, name: string, u: string)
    requires |outcomes| == |urls|
    requires forall i, j :: 0 <= i < j < |urls| ==> urls[i] != urls[j]
    decreases |urls|
    ensures var r := AddAll(st, urls, outcomes);
            && (forall i :: 0 <= i < |urls| && name == CacheName && u == urls[i] && outcomes[i].Some? && outcomes[i].value.ok ==>
                  Lookup(r, name, u) == outcomes[i])
            && ((forall i :: 0 <= i < |urls| && outcomes[i].Some? && outcomes[i].value.ok ==> name != CacheName || u != urls[i]) ==>
                  Lookup(r, name, u) == Lookup(st, name, u))
  {
    if urls != [] {
      var st' := if outcomes[0].Some? && outcomes[0].value.ok then Put(st, urls[0], outcomes[0].value) else st;
      AddAllSpec(st', urls[1..], outcomes[1..], name, u);
      if outcomes[0].Some? && outcomes[0].value.ok {
        PutSpec(st, urls[0], outcomes[0].value, name, u);
      }
      forall i | 0 <= i < |urls| && name == CacheName && u == urls[i] && outcomes[i].Some? && outcomes[i].value.ok
        ensures Lookup(AddAll(st, urls, outcomes), name, u) == outcomes[i]
      {
        if i > 0 {
          assert urls[1..][i - 1] == urls[i] && outcomes[1..][i - 1] == outcomes[i];
        } else {
          forall k | 0 <= k < |urls| - 1 && outcomes[1..][k].Some? && outcomes[1..][k].value.ok
            ensures name != CacheName || u != urls[1..][k]
          {
            assert urls[1..][k] == urls[k + 1];
          }
        }
      }
      if forall i :: 0 <= i < |urls| && outcomes[i].Some? && outcomes[i].value.ok ==> name != CacheName || u != urls[i] {
        forall k | 0 <= k < |urls| - 1 && outcomes[1..][k].Some? && outcomes[1..][k].value.ok
          ensures name != CacheName || u != urls[1..][k]
        {
          assert urls[1..][k] == urls[k + 1] && outcomes[1..][k] == outcomes[k + 1];
        }
      }
    }
  }

  /** The install handler: pre-cache the shell, whatever the outcomes. */
  function Install(st: Storage, outcomes: seq<Option<Response>>): Storage
    requires |outcomes| == |ShellUrls|
  {
    AddAll(OpenCache(st), ShellUrls, outcomes)
  }

  /** `caches.open(CACHE_NAME)`: the current cache, created empty at the end
      when it does not exist yet. */
  function OpenCache(st: Storage): (r: Storage)
    ensures exists i :: 0 <= i < |r| && r[i].name == CacheName
  {
    if st == [] then
      var r := [Cache(CacheName, map[])];
      assert r[0].name == CacheName;
      r
    else if st[0].name == CacheName then
      assert st[0].name == CacheName;
      st
    else
      var rest := OpenCache(st[1..]);
      var i :| 0 <= i < |rest| && rest[i].name == CacheName;
      assert ([st[0]] + rest)[i + 1].name == CacheName;
      [st[0]] + rest
  }

  /** Opening the cache adds no entry to any cache. */
  lemma {:induction false} OpenCacheLookup(st: Storage, name: string, u: string)
    ensures Lookup(OpenCache(st), name, u) == Lookup(st, name, u)
  {
    if st != [] && st[0].name != CacheName {
      OpenCacheLookup(st[1..], name, u);
    }
  }

  lemma InstallKeepsCurrent(st: Storage, outcomes: seq<Option<Response>>)
    requires |outcomes| == |ShellUrls|
    ensures exists k :: 0 <= k < |Install(st, outcomes)| && Install(st, outcomes)[k].name == CacheName
  {
    var o := OpenCache(st);
    var k :| 0 <= k < |o| && o[k].name == CacheName;
    assert Install(st, outcomes)[k].name == CacheName;
  }

  /** After install the current cache exists, even when every shell fetch
      failed, and every shell page that loaded is available offline in it. */
  lemma InstallSpec(st: Storage, outcomes: seq<Option<Response>>, i: nat)
    requires |outcomes| == |ShellUrls| && i < |ShellUrls|
    ensures exists k :: 0 <= k < |Install(st, outcomes)| && Install(st, outcomes)[k].name == CacheName
    ensures outcomes[i].Some? && outcomes[i].value.ok ==> Lookup(Install(st, outcomes), CacheName, ShellUrls[i]) == outcomes[i]
  {
    InstallKeepsCurrent(st, outcomes);
    if outcomes[i].Some? && outcomes[i].value.ok {
      assert forall a, b :: 0 <= a < b < |ShellUrls| ==> ShellUrls[a] != ShellUrls[b] by {
        forall a, b | 0 <= a < b < |ShellUrls|
          ensures ShellUrls[a] != ShellUrls[b]
        {
          ShellUrlsDistinct(a, b);
        }
      }
      AddAllSpec(OpenCache(st), ShellUrls, outcomes, CacheName, ShellUrls[i]);
    }
  }

  /** Install touches no entry other than the shell pages that loaded. */
  lemma InstallKeepsOthers(st: Storage, outcomes: seq<Option<Response>>, name: string, u: string)
    requires |outcomes| == |ShellUrls|
    requires forall k :: 0 <= k < |ShellUrls| && outcomes[k].Some? && outcomes[k].value.ok ==> name != CacheName || u != ShellUrls[k]
    ensures Lookup(Install(st, outcomes), name, u) == Lookup(st, name, u)
  {
    assert forall a, b :: 0 <= a < b < |ShellUrls| ==> ShellUrls[a] != ShellUrls[b] by {
      forall a, b | 0 <= a < b < |ShellUrls|
        ensures ShellUrls[a] != ShellUrls[b]
      {
        ShellUrlsDistinct(a, b);
      }
    }
    OpenCacheLookup(st, name, u);
    AddAllSpec(OpenCache(st), ShellUrls, outcomes, name, u);
  }

  lemma ShellUrlsDistinct(a: nat, b: nat)
    requires a < b < |ShellUrls|
    ensures ShellUrls[a] != ShellUrls[b]
  {
    if a == 0 {
      assert |ShellUrls[a]| != |ShellUrls[b]|;
    } else if a == 2 && b == 5 {
      assert ShellUrls[a][4] != ShellUrls[b][4];
    } else if b == 9 && (a == 2 || a == 5) {
      assert ShellUrls[a][2] != ShellUrls[b][2];
    } else {
      assert ShellUrls[a][1] != ShellUrls[b][1];
    }
  }

  /** The activate handler: every cache not named `CACHE_NAME` is deleted. */
  function Activate(st: Storage): Storage {
    Filter(st, (c: Cache) => c.name == CacheName)
  }

  /** After activation only caches of the current name are left, and the
      current cache's entries are untouched; activating again changes
      nothing. */
  lemma {:induction false} ActivateSpec(st: Storage, url: string)
    ensures forall i :: 0 <= i < |Activate(st)| ==> Activate(st)[i].name == CacheName
    ensures Lookup(Activate(st), CacheName, url) == Lookup(st, CacheName, url)
    ensures Activate(Activate(st)) == Activate(st)
  {
    if st != [] {
      ActivateSpec(st[1..], url);
    }
  }

  // ---------------------------------------------------------------------------
  // Background sync
  // ---------------------------------------------------------------------------

  const SyncTag := "synplix-sync"
  const SyncRequested := "SW_SYNC_REQUESTED"

  /** The sync listener: for its own tag, one message to every open window;
      for any other tag, nothing. */
  function OnSync(tag: string, clients: seq<string>): (r: seq<(string, string)>)
    ensures tag != SyncTag ==> r == []
    ensures tag == SyncTag ==> |r| == |clients| && forall i :: 0 <= i < |r| ==> r[i] == (clients[i], SyncRequested)
  {
    if tag != SyncTag then [] else seq(|clients|, i requires 0 <= i < |clients| => (clients[i], SyncRequested))
  }

  /** The page side (components/SwRegister.tsx): the tag it registers when
      the browser comes back online. */
  const RegisteredTag := "synplix-sync"

  /** The page side: a message whose type is the sync request makes the app
      run a sync pass (the `sw-sync` event). */
  predicate StartsAppSync(messageType: string) {
    messageType == "SW_SYNC_REQUESTED"
  }

  /** The tag the page registers is the one the worker answers, and the
      worker's message is the one the page reacts to: every open window is
      told once to sync; any other tag reaches no window. */
  lemma SyncRequestReachesEveryWindow(clients: seq<string>, other: string)
    requires other != RegisteredTag
    ensures var r := OnSync(RegisteredTag, clients);
            && |r| == |clients|
            && forall i :: 0 <= i < |r| ==> r[i].0 == clients[i] && StartsAppSync(r[i].1)
    ensures OnSync(other, clients) == []
  {
  }
}
