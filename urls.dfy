/**
 * The URL of a generated method's request: the service's base URL,
 * then one `ancestor/id` pair per ancestor resource (the ids are the
 * leading positional arguments), then the resource itself, then the
 * instance id when the next argument is a string or a number.
 */
module ResourceUrls {
  import opened JsValues

  /** The arguments that `resourceUrl` appends as an instance id. */
  predicate IsPrimitiveId(a: Arg) {
    TypeOf(a) == TString || TypeOf(a) == TNumber
  }

  /** `p1/a0/p2/a1/.../pk/a(k-1)/`: each ancestor followed by the argument
      at its own index, every part closed by a `/`. */
  function AncestorPath(parents: seq<string>, args: seq<Arg>): string {
    if parents == [] then ""
    else
      var k := |parents| - 1;
      AncestorPath(parents[..k], args) + parents[k] + "/" + ToText(ArgAt(args, k)) + "/"
  }

  /** `/id` when the argument after the ancestor ids is a string or a
      number, and nothing otherwise. */
  function IdSuffix(args: seq<Arg>, k: nat): string {
    var a := ArgAt(args, k);
    if IsPrimitiveId(a) then "/" + ToText(a) else ""
  }

  /** The part of the URL after the base. */
  function PathOf(args: seq<Arg>, parents: seq<string>, resource: string): string {
    AncestorPath(parents, args) + resource + IdSuffix(args, |parents|)
  }

  /** The URL `resourceUrl` returns, stated segment by segment. */
  function ResourceUrlOf(args: seq<Arg>, parents: seq<string>, base: string, resource: string): string {
    base + PathOf(args, parents, resource)
  }

  /** The list `nodes` holds once the ancestors have been pushed: each
      ancestor's name followed by the argument at its index. */
  function AncestorNodes(parents: seq<string>, args: seq<Arg>): (nodes: seq<Arg>)
    ensures |nodes| == 2 * |parents|
  {
    if parents == [] then []
    else
      var k := |parents| - 1;
      AncestorNodes(parents[..k], args) + [Str(parents[k]), ArgAt(args, k)]
  }

  lemma JoinSnoc(parts: seq<string>, s: string)
    requires parts != []
    ensures Join(parts + [s], '/') == Join(parts, '/') + "/" + s
  {
    assert (parts + [s])[..|parts|] == parts;
  }

  lemma TextsSnoc(nodes: seq<Arg>, a: Arg)
    ensures Texts(nodes + [a]) == Texts(nodes) + [ToText(a)]
  {
    assert (nodes + [a])[..|nodes|] == nodes;
  }

  /** Joining the ancestor nodes and a final name with `/` spells out the
      ancestor path followed by that name. */
  lemma {:induction false} JoinAncestorNodes(parents: seq<string>, args: seq<Arg>, name: string)
    ensures Join(Texts(AncestorNodes(parents, args) + [Str(name)]), '/') == AncestorPath(parents, args) + name
  {
    if parents == [] {
      assert AncestorNodes(parents, args) + [Str(name)] == [Str(name)];
    } else {
      var k := |parents| - 1;
      var init := AncestorNodes(parents[..k], args);
      var id := ArgAt(args, k);
      var withParent := init + [Str(parents[k])];
      var withId := withParent + [id];
      assert AncestorNodes(parents, args) == withId;
      JoinAncestorNodes(parents[..k], args, parents[k]);
      TextsSnoc(withParent, id);
      JoinSnoc(Texts(withParent), ToText(id));
      assert Join(Texts(withId), '/') == AncestorPath(parents[..k], args) + parents[k] + "/" + ToText(id);
      TextsSnoc(withId, Str(name));
      JoinSnoc(Texts(withId), name);
    }
  }

  /** The nodes `resourceUrl` pushes: the ancestor nodes, the resource and,
      when the argument after the ancestor ids is a string or a number,
      that argument. */
  function UrlNodes(args: seq<Arg>, parents: seq<string>, resource: string): seq<Arg> {
    var next := ArgAt(args, |parents|);
    AncestorNodes(parents, args) + [Str(resource)] + (if IsPrimitiveId(next) then [next] else [])
  }

  lemma JoinUrlNodes(args: seq<Arg>, parents: seq<string>, resource: string)
    ensures Join(Texts(UrlNodes(args, parents, resource)), '/') == PathOf(args, parents, resource)
  {
    var nodes := AncestorNodes(parents, args) + [Str(resource)];
    JoinAncestorNodes(parents, args, resource);
    var next := ArgAt(args, |parents|);
    if IsPrimitiveId(next) {
      TextsSnoc(nodes, next);
      JoinSnoc(Texts(nodes), ToText(next));
    } else {
      assert UrlNodes(args, parents, resource) == nodes;
    }
  }

  /** `resourceUrl(args, parents, base, resource)`: pushes the ancestor
      nodes, the resource and perhaps the instance id onto `nodes`, and
      appends their `/`-join to the base. */
  method ResourceUrl(args: seq<Arg>, parents: seq<string>, base: string, resource: string) returns (url: string)
    ensures url == ResourceUrlOf(args, parents, base, resource)
  {
    var argIndex := 0;
    var nodes: seq<Arg> := [];
    while argIndex < |parents|
      invariant 0 <= argIndex <= |parents|
      invariant nodes == AncestorNodes(parents[..argIndex], args)
    {
      assert parents[..argIndex + 1][..argIndex] == parents[..argIndex];
      nodes := nodes + [Str(parents[argIndex]), ArgAt(args, argIndex)];
      argIndex := argIndex + 1;
    }
    assert parents[..argIndex] == parents;
    nodes := nodes + [Str(resource)];
    var next := ArgAt(args, argIndex);
    if IsPrimitiveId(next) {
      nodes := nodes + [next];
    }
    assert nodes == UrlNodes(args, parents, resource);
    JoinUrlNodes(args, parents, resource);
    url := base + Join(Texts(nodes), '/');
  }

  /** The URL always starts with the base. */
  lemma UrlStartsWithBase(args: seq<Arg>, parents: seq<string>, base: string, resource: string)
    ensures var url := ResourceUrlOf(args, parents, base, resource);
      |base| <= |url| && url[..|base|] == base
  {
  }

  /** After the base, the URL holds the ancestor path and the resource
      name verbatim, and then an instance id exactly when the argument
      after the ancestor ids is a string or a number. */
  lemma UrlResourceAndId(args: seq<Arg>, parents: seq<string>, resource: string)
    ensures var path := PathOf(args, parents, resource);
      var head := AncestorPath(parents, args) + resource;
      && |head| <= |path| && path[..|head|] == head
      && (|path| > |head| <==> IsPrimitiveId(ArgAt(args, |parents|)))
      && (IsPrimitiveId(ArgAt(args, |parents|)) ==> path[|head|..] == "/" + ToText(args[|parents|]))
  {
    var head := AncestorPath(parents, args) + resource;
    var id := IdSuffix(args, |parents|);
    assert PathOf(args, parents, resource) == head + id;
  }

  /** Two ancestors, each followed by its id. */
  lemma AncestorPathTwo(p0: string, p1: string, args: seq<Arg>)
    ensures AncestorPath([p0, p1], args)
         == p0 + "/" + ToText(ArgAt(args, 0)) + "/" + p1 + "/" + ToText(ArgAt(args, 1)) + "/"
  {
    assert [p0, p1][..1] == [p0];
    assert [p0][..0] == [];
    assert AncestorPath([p0], args) == p0 + "/" + ToText(ArgAt(args, 0)) + "/";
  }

  /** Arguments past the instance-id position never change the URL. */
  lemma {:induction false} UrlIgnoresLaterArgs(args: seq<Arg>, more: seq<Arg>, parents: seq<string>, base: string, resource: string)
    requires |args| > |parents|
    ensures ResourceUrlOf(args + more, parents, base, resource) == ResourceUrlOf(args, parents, base, resource)
  {
    AncestorPathPrefix(parents, args, more);
  }

  lemma {:induction false} AncestorPathPrefix(parents: seq<string>, args: seq<Arg>, more: seq<Arg>)
    requires |args| >= |parents|
    ensures AncestorPath(parents, args + more) == AncestorPath(parents, args)
  {
    if parents != [] {
      AncestorPathPrefix(parents[..|parents| - 1], args, more);
    }
  }

  /** The ancestor path holds each ancestor and its id in declared order:
      ancestor `i` sits at the position the previous pairs leave for it. */
  lemma {:induction false} AncestorPathAppend(parents: seq<string>, p: string, args: seq<Arg>)
    ensures AncestorPath(parents + [p], args)
         == AncestorPath(parents, args) + p + "/" + ToText(ArgAt(args, |parents|)) + "/"
  {
    assert (parents + [p])[..|parents|] == parents;
  }
}
