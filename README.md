# gapi.js service generation, modelled in Dafny

gapi.js is an AngularJS factory that builds Google API client services from
a compact *spec*: an object whose keys are resource names and whose values
list actions (`'get'`, `'list'`, `'insert'`, ...) and nested specs. For each
action the walker registers a method on the service. The method's name is
the action followed by the capitalised leaf of the resource name. The
method is a closure over the resource and its chain of ancestor resources.
When called, it builds the request URL from the service's base URL, the
ancestor resources and the leading positional arguments. It then picks the
HTTP verb, the body and the query-parameter bag according to its action.

The Dafny project models this core:

- `jsvalues.dfy` (`JsValues`): the argument values a generated method
  receives. It models `typeof`, the `undefined` read of a missing index of
  `arguments`, truthiness, and the rendering that `Array.prototype.join`
  gives each element. It also models `split` and `join`, and proves that
  `join` undoes `split`.
- `names.dfy` (`MethodNames`): `methodName`, i.e. the last `/`-segment of
  the resource with its first character upper-cased, after the action.
- `urls.dfy` (`ResourceUrls`): `resourceUrl`, as a method with the
  source's loop. It is proved equal to a segment-by-segment definition of
  the URL, and lemmas about that definition give its shape.
- `requests.dfy` (`Requests`): the eight request builders `GAPI.get`,
  `set`, `unset`, `list`, `insert`, `update`, `patch` and `delete`. It
  covers the verb each sends, the `/set` and `/unset` suffixes, `params`,
  and the two-argument lookback that writes use to split body from bag.
- `service.dfy` (`Service`): the service handle.
  - `ServiceHandle` is a class whose `methods` map is filled in place by
    `createMethods`. That is a recursive method whose loops are proved
    against a fold of map updates over the triples the walk meets.
  - The lemmas cover the walk's triples: covering every depth, the
    ancestor chains, the last write winning, and the key set.
  - The `GAPI` constructor's base URL.
  - `RequestConfig` holds the two OAuth signing helpers, which update a
    request's options in place.
- `examples.dfy` (`ServiceExamples`): examples from the repository's
  services: the whole Blogger spec, walked to its triples and methods;
  Drive's nested replies resource; Calendar's `users/me/settings`
  resource; and requests sent by YouTube's `videos` and `thumbnails`
  methods, from descriptors built by hand.

Values rather than closures: a registered method is a `Descriptor` naming
its action, resource and ancestor chain. Calling it is `Invoke`, which
yields the request envelope (verb, URL, body, bag) that the code hands to
`request`. A resource of the spec is a `Resource` whose entries are action
strings (`Act`) or nested specs (`Nested`), in the order `Object.keys` and
`forEach` visit them.

A spec action that names no request builder makes `GAPI[action]`
`undefined`, so calling it throws a `TypeError`. The model follows that
code path:
- the walk stops at that triple;
- the methods registered before it stay on the handle;
- `CreateMethods` reports `false`;
- `NewService` gives no service.

## Model

| member | source | states |
|---|---|---|
| JsValues.ToText | gapi.js:174 | defines how `join` renders one node: strings verbatim, `null` and `undefined` as empty, booleans as words, integers in decimal, objects as `[object Object]`; used through `Texts` |
| JsValues.Join | gapi.js:102 | defines `join`: the parts in order with one separator between neighbours; `JoinSplit`, `BaseUrlShape` and `JoinUrlNodes` state its properties |
| JsValues.Truthy | gapi.js:115 | defines truthiness, which the `!options.headers` test and the `!options.params` test at gapi.js:120 use; `OauthParams` states its effect |
| JsValues.TypeOf | gapi.js:184 | `typeof` is `'object'` exactly for objects and `null`, and `'undefined'` exactly for `undefined` |
| JsValues.ArgAt | gapi.js:245-246 | reading `arguments` at an index outside the call's arguments, negative ones included, gives `undefined`; inside, the argument itself |
| JsValues.Texts | gapi.js:174 | `join` renders each node by the JavaScript rules, one string per node, in order |
| JsValues.Split | gapi.js:51 | `split` always yields at least one part, and no part holds the separator |
| JsValues.JoinSplit | gapi.js:51 | joining the parts of a split with the same separator gives back the string, so splitting loses no characters |
| MethodNames.LastSegment | gapi.js:51 | defines `resource.split('/').pop()`; `LastSegmentIsMaximalSuffix`, `LastSegmentOfPlainName` and `LastSegmentAfterSlash` state its properties |
| MethodNames.Capitalize | gapi.js:53 | defines `charAt(0).toUpperCase() + slice(1)`, empty for the empty string; `MethodNameShape` states its effect |
| MethodNames.MethodName | gapi.js:49-55 | defines `methodName`; see `MethodNameShape`, `MethodNameIgnoresPathPrefix` and `MethodNameOfPath` |
| MethodNames.UpperChar | gapi.js:53 | `toUpperCase` maps `a`-`z` to `A`-`Z` and leaves any other character alone |
| MethodNames.LastSegmentIsMaximalSuffix | gapi.js:51 | `split('/').pop()` is the longest suffix without `/`: a suffix, `/`-free, and either the whole resource or preceded by `/` |
| MethodNames.LastSegmentOfPlainName | gapi.js:51 | a resource without `/` is its own last segment |
| MethodNames.LastSegmentAfterSlash | gapi.js:50-51 | segments before the last `/` never affect the last segment |
| MethodNames.MethodNameShape | gapi.js:49-55 | the name is the action, then the last segment with only its first character upper-cased and the rest verbatim; no `/` follows the action |
| MethodNames.MethodNameIgnoresPathPrefix | gapi.js:50-51 | a resource with a path prefix is named exactly as its leaf alone |
| MethodNames.MethodNameOfPath | gapi.js:50-54 | `prefix/leaf` with a `/`-free leaf is named action + capitalised leaf |
| ResourceUrls.AncestorPath | gapi.js:162-166 | defines the ancestor part of the URL, each ancestor followed by the argument at its index; see `AncestorPathAppend`, `AncestorPathPrefix` and `AncestorPathTwo` |
| ResourceUrls.IdSuffix | gapi.js:170-172 | defines the instance-id part: `/id` for a string or number argument after the ancestor ids, nothing otherwise; see `UrlResourceAndId` |
| ResourceUrls.PathOf | gapi.js:162-174 | defines the URL after the base; `JoinUrlNodes` ties it to the pushed nodes |
| ResourceUrls.ResourceUrlOf | gapi.js:156-175 | defines the URL `resourceUrl` returns; `ResourceUrl` is proved to compute it, and `UrlStartsWithBase`, `UrlResourceAndId` and `UrlIgnoresLaterArgs` state its shape |
| ResourceUrls.AncestorNodes | gapi.js:163-166 | the ancestor loop pushes two nodes per ancestor |
| ResourceUrls.JoinAncestorNodes | gapi.js:162-169 | joining the ancestor nodes and the resource with `/` spells each ancestor and its id, in order, then the resource |
| ResourceUrls.JoinUrlNodes | gapi.js:169-174 | the `/`-join of all pushed nodes is the path after the base |
| ResourceUrls.ResourceUrl | gapi.js:156-175 | the loop over the ancestors and the pushes that follow it produce the base plus the ancestor/id pairs, the resource, and the instance id when one is given |
| ResourceUrls.UrlStartsWithBase | gapi.js:174 | every resource URL starts with the service's base URL |
| ResourceUrls.UrlResourceAndId | gapi.js:169-172 | after the ancestor path comes the resource verbatim, and then `/id` if and only if the argument after the ancestor ids is a string or a number |
| ResourceUrls.AncestorPathTwo | gapi.js:163-166 | with two ancestors, the path is `p0/a0/p1/a1/` |
| ResourceUrls.AncestorPathAppend | gapi.js:163-166 | one more ancestor appends itself and the argument at its own index to the path |
| ResourceUrls.UrlIgnoresLaterArgs | gapi.js:163-172 | arguments past the instance-id position never change the URL |
| ResourceUrls.AncestorPathPrefix | gapi.js:164 | the ancestor path reads only the first arguments, one per ancestor |
| Requests.ParseAction | gapi.js:87 | defines the lookup `GAPI[action]` over the eight builders; see `ParseActionName` |
| Requests.VerbOf | gapi.js:199-338 | defines the verb of each builder; see `VerbTable` |
| Requests.UrlSuffix | gapi.js:211-222 | defines the `/set` and `/unset` suffixes; see `InvokeUrl` |
| Requests.Invoke | gapi.js:196-343 | defines the request a generated method sends when applied to its arguments; see `VerbTable`, `InvokeUrl`, `InvokePayload` and `InvokeBagIsObjectOrAbsent` |
| Requests.ParseActionName | gapi.js:87 | `GAPI[action]` finds a builder exactly for the eight action names, each naming its own builder |
| Requests.Params | gapi.js:182-185 | the bag is always `typeof` object; it is the last argument when that is an object or `null`, and `null` otherwise, including with no arguments |
| Requests.WriteSplit | gapi.js:253-261 | a body is sent exactly when the last argument is an object; a bag only alongside a body, and only with two or more arguments; both are objects |
| Requests.WriteSplitCases | gapi.js:284-292 | two trailing objects are body then bag; one trailing object after a non-object is the body alone; a non-object last argument sends neither |
| Requests.WriteSplitLastTwo | gapi.js:245-248 | the split depends on the last two arguments only, a missing one reading `undefined` |
| Requests.WriteSplitOneObject | gapi.js:320-323 | a call with a single object argument sends it as the body and no bag |
| Requests.WriteParamsAgreeWithRead | gapi.js:253-256 | when a write sends a bag, it is the bag `params(arguments)` gives a read |
| Requests.VerbTable | gapi.js:196-343 | get and list send GET; insert, set and unset POST; update PUT; patch PATCH; delete DELETE; each verb only for those actions |
| Requests.InvokeUrl | gapi.js:207-226 | every request goes to the resource URL; set appends `/set`, unset `/unset`, and no other action appends anything |
| Requests.InvokePayload | gapi.js:196-343 | get, set, unset, list and delete send no body and `params(arguments)` as the bag; insert, update and patch send the lookback's body and bag |
| Requests.InvokeBagIsObjectOrAbsent | gapi.js:182-185 | every bag a generated method sends is `null`, `undefined` or an object |
| Requests.ListWithBag | gapi.js:229-237 | `list(bag)` on a top-level resource reads the collection URL with that bag |
| Service.BaseUrl | gapi.js:102 | defines `[server, api, version, ''].join('/')`; see `BaseUrlShape` |
| Service.SpecRegs | gapi.js:66-92 | defines the triples `createMethods` meets, in the order it visits resources and entries; see `WalkIsOccurrences`, `WalkCovers` and `ResourceChain` |
| Service.ResourcesRegs | gapi.js:67-91 | defines the triples of the first resources of a spec, in key order |
| Service.EntriesRegs | gapi.js:70-90 | defines the triples of the first entries of one resource, in list order |
| Service.EntryRegs | gapi.js:76-88 | defines the triples of one entry: an action string is one triple with the current chain; a nested spec recurses with the chain extended by the resource |
| Service.Register | gapi.js:86-87 | defines the repeated `service[method] = GAPI[action](resource, parents)`, stopping at the first unknown action; see `RegisterAppend`, `RegisterOne`, `RegisterElsewhere`, `RegisterLastWins` and `RegisterKeys` |
| Service.BaseUrlShape | gapi.js:102 | the base URL is the server, the API and the version, each followed by `/` |
| Service.RegisterAppend | gapi.js:69-91 | registering two runs of triples is registering one after the other; a run with an unknown action stops everything after it |
| Service.RegisterOne | gapi.js:86-87 | a known triple stores its descriptor under its generated name |
| Service.RegisterElsewhere | gapi.js:87 | a name no triple generates keeps its old entry, or stays absent |
| Service.RegisterLastWins | gapi.js:86-87 | with every action known, the entry under a name is the last triple that generates it |
| Service.RegisterKeys | gapi.js:86-87 | with every action known, the registered names are the old ones plus one generated name per triple |
| Service.SpecRegsKeepChain | gapi.js:78-82 | every triple of a nested walk carries the chain it started from as a prefix |
| Service.ResourceChain | gapi.js:72-89 | inside one resource, an action gets the enclosing chain, and a nested spec's triples get that chain extended by exactly this resource |
| Service.WalkPrefix | gapi.js:67-72 | the work done before an entry is a prefix of the spec's whole walk |
| Service.WalkCovers | gapi.js:66-92 | every action of a resource, and every triple of a spec nested in it, is met by the walk of the enclosing spec |
| Service.WalkIsOccurrences | gapi.js:66-92 | the walk meets a triple if and only if it occurs in the spec: an action string of one of its resources with the enclosing chain, or, recursively, a triple of a nested spec under the chain extended by its resource |
| Service.WalkDefinesEveryAction | gapi.js:66-92 | when the walk succeeds, every action occurring at any depth of the spec has a method under its generated name |
| Service.StoppedWalk | gapi.js:87 | an unknown action fails the whole walk, and the methods registered up to it stay |
| Service.ResourceStep | gapi.js:69-91 | each resource extends the fold; a failing resource fails the spec with the same state |
| Service.EntryStep | gapi.js:72-90 | each entry extends the fold; a failing entry fails the resource with the same state |
| Service.ServiceHandle.constructor | gapi.js:99-102 | a new handle has its API, version and base URL and no methods |
| Service.ServiceHandle.CreateMethods | gapi.js:66-92 | the map after the walk is the old map with the walk's triples registered in order; succeeds exactly when every action names a builder |
| Service.ServiceHandle.CreateResourceMethods | gapi.js:69-91 | the same for one resource, recursing into nested specs with the chain extended by the resource |
| Service.ServiceHandle.Call | gapi.js:197-202 | a method exists exactly for registered names, and every request it sends starts with the service's URL |
| Service.NewService | gapi.js:99-107 | the service exists exactly when every action is known; it then has the base URL and the methods of the whole walk |
| Service.RequestConfig.constructor | gapi.js:198-202 | the options hold the envelope's verb, URL, body and bag, once each, and no headers |
| Service.RequestConfig.OauthHeader | gapi.js:114-117 | creates the headers when absent and sets `Authorization` to `Bearer` + token; other headers and the bag are unchanged |
| Service.RequestConfig.OauthParams | gapi.js:119-122 | (never called in the library) a falsy bag becomes a fresh object; the token goes under `access_token` and other keys are kept; a truthy non-object bag throws and nothing changes |
| ServiceExamples.BlogCommentsRegs | gapi.js:515 | Blogger's comments are registered under the chain `blogs`, `posts` |
| ServiceExamples.BlogPostsRegs | gapi.js:514-516 | the posts resource gives its five actions, then its nested comments |
| ServiceExamples.BlogResourcesRegs | gapi.js:512-517 | pages and posts under `blogs` |
| ServiceExamples.BloggerRegs | gapi.js:510-518 | the full Blogger walk: every action at every depth, with its ancestor chain |
| ServiceExamples.BloggerAllKnown | gapi.js:510-518 | every action of the Blogger spec names a request builder |
| ServiceExamples.BloggerGetCommentsMethod | gapi.js:510-518 | the Blogger walk succeeds, and the method registered as `getComments` is the get builder for `comments` under the chain `blogs`, `posts` |
| ServiceExamples.BloggerBaseUrl | gapi.js:510 | the Blogger URL is `https://www.googleapis.com/blogger/v3/` |
| ServiceExamples.BloggerGetComments | gapi.js:488 | `getComments(blogId, postId, commentId)` reads `blogs/{blogId}/posts/{postId}/comments/{commentId}` |
| ServiceExamples.BloggerListPosts | gapi.js:493 | `listPosts(blogId)` reads `blogs/{blogId}/posts` |
| ServiceExamples.DriveRepliesRegs | gapi.js:627-629 | Drive's replies register six actions under the chain `files`, `comments` |
| ServiceExamples.DriveReplyNames | gapi.js:628 | reply methods are named after the leaf only (`getReplies`) |
| ServiceExamples.DriveInsertReplies | gapi.js:627-628 | `insertReplies(fileId, commentId, body, bag)` posts to `files/{fileId}/comments/{commentId}/replies` with that body and bag |
| ServiceExamples.YoutubeUpdateVideos | gapi.js:419 | the documented `updateVideos(data, params)` puts to the collection `videos` with that body and bag, since an object is no instance id |
| ServiceExamples.YoutubeUpdateVideoById | gapi.js:273-301 | the update closure called with a string id and one object puts that body to `videos/{id}` with no bag |
| ServiceExamples.YoutubeInsertVideos | gapi.js:418 | `insertVideos(body, bag)` posts to `videos` |
| ServiceExamples.YoutubeSetThumbnails | gapi.js:436 | `setThumbnails(bag)` posts to `thumbnails/set` |
| ServiceExamples.CalendarSettingsRegs | gapi.js:542 | `users/me/settings` is one top-level resource, with no ancestors |
| ServiceExamples.CalendarSettingsName | gapi.js:542 | its methods are named after `settings` alone |
| ServiceExamples.CalendarGetSettings | gapi.js:542 | its path is spliced into the URL whole, before the instance id |

## Left out

- `request` (gapi.js:129-146): the promise, `$http` transport and logging are I/O. Its one effect on the options, `oauthHeader`, is modelled as `RequestConfig.OauthHeader`.
- `oauthParams` (gapi.js:119-122) is never called by the library: `request` signs with the header only. It is modelled as `RequestConfig.OauthParams` on its own.
- ServiceExamples: only the Blogger spec is modelled whole and followed from its literal to a registered method. The Drive example walks the nested replies spec under the chain `files`, `comments`, the Calendar example only the `users/me/settings` resource, and the YouTube spec is not walked: its request examples start from descriptors built by hand.
- `GAPI.init` and the `gapi.auth` flow, and where the token comes from: the bearer token is a parameter of the signing methods. A missing token, which would throw, is not modelled.
- `GAPI.search`, and the hand-written methods of each service (`rateVideos`, `clearCalendar`, `copyFile`, ...): they are fixed requests outside the generic walk.
- The AngularJS module and factory wiring, and `this` binding: the base URL is passed to `Invoke` explicitly.
- `params` at gapi.js:159: it is computed and never used, so it has no effect to model.
- Spec key order: `Object.keys` puts integer-like keys first. The model takes the resources in the order given, and resource names in the repository's specs are not integer-like.
- Arguments that are functions, arrays or non-integer numbers: `Num` holds integers only, rendered in decimal. `NaN` and the other special numbers are not modelled.
- Properties of `GAPI` other than the eight builders: an action naming one of them is treated like any other unknown action, so the walk stops. The code does something else for each:
  - `search` and `init` would be called during construction, firing a request (or throwing, since `oauthHeader` reads the stored token and none is stored until `init` has run) or the OAuth flow, and their returned promise would be stored rather than a callable method;
  - `request` would throw, because `oauthHeader` cannot create a property on a string in strict mode;
  - inherited function members such as `call`, `bind` and `toString` also resolve to functions.
- `MethodNames.UpperChar`: maps only the ASCII letters; `toUpperCase` on other scripts and characters that expand to several letters are not modelled.
- The difference between a request option that is absent and one set to `undefined`: both are `Undef`.
- `parents` left `undefined` at the top level: it is modelled as the empty list, which gives the same URLs.
