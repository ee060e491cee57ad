/**
 * What a generated method sends when it is called: the HTTP verb and URL
 * suffix fixed by its action, and the request body and query-parameter
 * bag picked out of its trailing positional arguments.
 */
module Requests {
  import opened JsValues
  import opened ResourceUrls

  /** The actions a spec may name: the general request builders
      `GAPI.get`, `set`, `unset`, `list`, `insert`, `update`, `patch` and
      `delete`. */
  datatype Action = Get | Set | Unset | List | Insert | Update | Patch | Delete

  datatype Verb = GET | POST | PUT | PATCH | DELETE

  /** The unit handed to the transport: verb, URL, body and query bag.
      An absent body or bag is `Undef`. */
  datatype Envelope = Envelope(verb: Verb, url: string, data: Arg, params: Arg)

  /** What a generated method closes over: its action, its resource and
      its ancestor chain. */
  datatype Descriptor = Descriptor(action: Action, resource: string, parents: seq<string>)

  function ActionName(a: Action): string {
    match a
    case Get => "get"
    case Set => "set"
    case Unset => "unset"
    case List => "list"
    case Insert => "insert"
    case Update => "update"
    case Patch => "patch"
    case Delete => "delete"
  }

  /** `GAPI[action]`: the request builder of that name, if there is one
      (the lookup is case-sensitive). */
  function ParseAction(s: string): Option<Action> {
    if s == "get" then Some(Get)
    else if s == "set" then Some(Set)
    else if s == "unset" then Some(Unset)
    else if s == "list" then Some(List)
    else if s == "insert" then Some(Insert)
    else if s == "update" then Some(Update)
    else if s == "patch" then Some(Patch)
    else if s == "delete" then Some(Delete)
    else None
  }

  /** Looking an action up by its name finds it, and a name is found only
      if it is the name of the action found. */
  lemma ParseActionName(a: Action, s: string)
    ensures ParseAction(ActionName(a)) == Some(a)
    ensures ParseAction(s) == Some(a) <==> s == ActionName(a)
  {
  }

  predicate IsWrite(a: Action) {
    a == Insert || a == Update || a == Patch
  }

  function VerbOf(a: Action): Verb {
    match a
    case Get => GET
    case List => GET
    case Set => POST
    case Unset => POST
    case Insert => POST
    case Update => PUT
    case Patch => PATCH
    case Delete => DELETE
  }

  function UrlSuffix(a: Action): string {
    match a
    case Set => "/set"
    case Unset => "/unset"
    case _ => ""
  }

  /** `params(arguments)`: the last argument when `typeof` calls it an
      object (which includes `null`), and `null` otherwise; with no
      arguments the last one reads `undefined`, so the result is `null`. */
  function Params(args: seq<Arg>): (r: Arg)
    ensures IsObject(r)
    ensures r != Null ==> |args| > 0 && r == args[|args| - 1]
    ensures |args| > 0 && IsObject(args[|args| - 1]) ==> r == args[|args| - 1]
  {
    var last := ArgAt(args, |args| - 1);
    if TypeOf(last) == TObject then last else Null
  }

  /** The body and query bag of a write request. */
  datatype Payload = Payload(data: Arg, params: Arg)

  /** The two-argument lookback of `insert`, `update` and `patch`: two
      trailing objects are body then bag, one trailing object is the body
      alone, and no trailing object means neither. */
  function WriteSplit(args: seq<Arg>): (p: Payload)
    ensures p.data != Undef <==> |args| > 0 && IsObject(args[|args| - 1])
    ensures p.params != Undef ==> p.data != Undef
    ensures p.data != Undef ==> IsObject(p.data)
    ensures p.params != Undef ==> IsObject(p.params) && |args| >= 2
  {
    var last := ArgAt(args, |args| - 1);
    var next := ArgAt(args, |args| - 2);
    if TypeOf(last) == TObject && TypeOf(next) == TObject then Payload(next, last)
    else if TypeOf(last) == TObject && TypeOf(next) != TObject then Payload(last, Undef)
    else Payload(Undef, Undef)
  }

  /** The closure `GAPI[action](resource, parents)` applied to `args` on a
      service whose URL is `base`: the request it hands to the transport. */
  function Invoke(d: Descriptor, base: string, args: seq<Arg>): Envelope {
    var url := ResourceUrlOf(args, d.parents, base, d.resource) + UrlSuffix(d.action);
    if IsWrite(d.action) then
      var p := WriteSplit(args);
      Envelope(VerbOf(d.action), url, p.data, p.params)
    else
      Envelope(VerbOf(d.action), url, Undef, Params(args))
  }

  /** The split depends only on the last two arguments; a missing one
      reads `undefined`. */
  lemma WriteSplitLastTwo(args: seq<Arg>)
    ensures WriteSplit(args) == WriteSplit([ArgAt(args, |args| - 2), ArgAt(args, |args| - 1)])
  {
  }

  /** The three outcomes of the lookback, each with its exact payload. */
  lemma WriteSplitCases(args: seq<Arg>, pre: seq<Arg>, x: Arg, y: Arg)
    requires args == pre + [x, y]
    ensures IsObject(x) && IsObject(y) ==> WriteSplit(args) == Payload(x, y)
    ensures !IsObject(x) && IsObject(y) ==> WriteSplit(args) == Payload(y, Undef)
    ensures !IsObject(y) ==> WriteSplit(args) == Payload(Undef, Undef)
  {
  }

  /** A single trailing object is the body, wherever the call has fewer
      than two arguments as well. */
  lemma WriteSplitOneObject(body: Arg)
    requires IsObject(body)
    ensures WriteSplit([body]) == Payload(body, Undef)
  {
  }

  /** When both trailing arguments are objects, the write bag is the very
      bag a read call would have sent. */
  lemma WriteParamsAgreeWithRead(args: seq<Arg>)
    requires WriteSplit(args).params != Undef
    ensures WriteSplit(args).params == Params(args)
  {
  }

  /** The verb of each action: list and get read with GET, delete sends
      DELETE, insert, set and unset POST, update PUT and patch PATCH. */
  lemma VerbTable(d: Descriptor, base: string, args: seq<Arg>)
    ensures var v := Invoke(d, base, args).verb;
      && (v == GET <==> d.action in {Get, List})
      && (v == POST <==> d.action in {Insert, Set, Unset})
      && (v == PUT <==> d.action == Update)
      && (v == PATCH <==> d.action == Patch)
      && (v == DELETE <==> d.action == Delete)
  {
  }

  /** Every request goes to the resource URL; set and unset add `/set`
      and `/unset` to it and no other action adds anything. */
  lemma InvokeUrl(d: Descriptor, base: string, args: seq<Arg>)
    ensures var url := Invoke(d, base, args).url;
      var resourceUrl := ResourceUrlOf(args, d.parents, base, d.resource);
      && |resourceUrl| <= |url| && url[..|resourceUrl|] == resourceUrl
      && (d.action == Set <==> url == resourceUrl + "/set")
      && (d.action == Unset <==> url == resourceUrl + "/unset")
      && (d.action !in {Set, Unset} <==> url == resourceUrl)
  {
    var resourceUrl := ResourceUrlOf(args, d.parents, base, d.resource);
    var url := Invoke(d, base, args).url;
    if d.action == Set {
      assert url[|resourceUrl|..] == "/set";
    } else if d.action == Unset {
      assert url[|resourceUrl|..] == "/unset";
    }
  }

  /** Read, delete, set and unset calls never send a body, and their
      query bag is `params(arguments)`; write calls send the lookback's
      payload. */
  lemma InvokePayload(d: Descriptor, base: string, args: seq<Arg>)
    ensures var e := Invoke(d, base, args);
      && (!IsWrite(d.action) ==> e.data == Undef && e.params == Params(args))
      && (IsWrite(d.action) ==> e.data == WriteSplit(args).data && e.params == WriteSplit(args).params)
  {
  }

  /** Every query bag a generated method sends is `null`, `undefined` or
      an object. */
  lemma InvokeBagIsObjectOrAbsent(d: Descriptor, base: string, args: seq<Arg>)
    ensures var bag := Invoke(d, base, args).params;
      bag == Null || bag == Undef || bag.Obj?
  {
  }

  /** A read call whose only argument is an object sends it entirely as
      the query bag, to the collection URL. */
  lemma ListWithBag(resource: string, base: string, bag: Arg)
    requires bag.Obj?
    ensures Invoke(Descriptor(List, resource, []), base, [bag])
         == Envelope(GET, base + resource, Undef, bag)
  {
  }
}
