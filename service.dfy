/**
 * A service handle and the spec walker that fills it: every action of
 * every resource, at every nesting depth, becomes a method registered
 * under its generated name, closing over the ancestor chain of the
 * resources it is nested in.
 */
module Service {
  import opened JsValues
  import opened MethodNames
  import opened ResourceUrls
  import opened Requests

  /** The Google APIs server. */
  const Server: string := "https://www.googleapis.com"

  /** A spec object: its resources in key order. */
  datatype Spec = Spec(resources: seq<Resource>)

  /** One key of a spec and its list of actions and nested specs. */
  datatype Resource = Resource(name: string, entries: seq<Entry>)

  datatype Entry = Act(action: string) | Nested(spec: Spec)

  /** One (action, resource, ancestor chain) triple the walker meets. */
  datatype Reg = Reg(action: string, resource: string, parents: seq<string>)

  // The triples of a spec, in the order the walker meets them.

  function SpecRegs(s: Spec, parents: seq<string>): seq<Reg>
    decreases s, |s.resources| + 1
  {
    ResourcesRegs(s, |s.resources|, parents)
  }

  /** The triples of the first `n` resources of `s`. */
  function ResourcesRegs(s: Spec, n: nat, parents: seq<string>): seq<Reg>
    requires n <= |s.resources|
    decreases s, n
  {
    if n == 0 then []
    else ResourcesRegs(s, n - 1, parents) + EntriesRegs(s.resources[n - 1], |s.resources[n - 1].entries|, parents)
  }

  /** The triples of the first `n` entries of `r`. */
  function EntriesRegs(r: Resource, n: nat, parents: seq<string>): seq<Reg>
    requires n <= |r.entries|
    decreases r, n
  {
    if n == 0 then []
    else EntriesRegs(r, n - 1, parents) + EntryRegs(r.name, r.entries[n - 1], parents)
  }

  /** An action string is one triple; a nested spec contributes its own
      triples under the chain extended by the enclosing resource. */
  function EntryRegs(name: string, e: Entry, parents: seq<string>): seq<Reg>
    decreases e
  {
    match e
    case Act(a) => [Reg(a, name, parents)]
    case Nested(sub) => SpecRegs(sub, parents + [name])
  }

  function NameOf(r: Reg): string {
    MethodName(r.action, r.resource)
  }

  predicate IsKnown(r: Reg) {
    ParseAction(r.action).Some?
  }

  predicate AllKnown(regs: seq<Reg>) {
    forall i :: 0 <= i < |regs| ==> IsKnown(regs[i])
  }

  /** `service[methodName(action, resource)] = GAPI[action](resource,
      parents)` for each triple in turn, until an action names no request
      builder: calling the missing builder throws and ends the walk. */
  function Register(m: map<string, Descriptor>, regs: seq<Reg>): map<string, Descriptor>
    decreases regs
  {
    if regs == [] then m
    else
      match ParseAction(regs[0].action)
      case None => m
      case Some(a) =>
        Register(m[NameOf(regs[0]) := Descriptor(a, regs[0].resource, regs[0].parents)], regs[1..])
  }

  /** `[server, api, version, ''].join('/')`. */
  function BaseUrl(api: string, version: string): string {
    Join([Server, api, version, ""], '/')
  }

  lemma BaseUrlShape(api: string, version: string)
    ensures BaseUrl(api, version) == Server + "/" + api + "/" + version + "/"
  {
    var parts := [Server, api, version, ""];
    assert parts[..3] == [Server, api, version];
    assert [Server, api, version][..2] == [Server, api];
    assert [Server, api][..1] == [Server];
    assert Join([Server, api], '/') == Server + "/" + api;
    assert Join([Server, api, version], '/') == Server + "/" + api + "/" + version;
  }

  // Registration as a fold of map updates.

  lemma {:induction false} RegisterAppend(m: map<string, Descriptor>, xs: seq<Reg>, ys: seq<Reg>)
    ensures AllKnown(xs) ==> Register(m, xs + ys) == Register(Register(m, xs), ys)
    ensures !AllKnown(xs) ==> Register(m, xs + ys) == Register(m, xs)
    decreases xs
  {
    if xs != [] {
      assert (xs + ys)[0] == xs[0];
      assert (xs + ys)[1..] == xs[1..] + ys;
      match ParseAction(xs[0].action)
      case None =>
      case Some(a) =>
        RegisterAppend(m[NameOf(xs[0]) := Descriptor(a, xs[0].resource, xs[0].parents)], xs[1..], ys);
        assert AllKnown(xs) <==> AllKnown(xs[1..]) by {
          assert forall i :: 0 < i < |xs| ==> xs[i] == xs[1..][i - 1];
        }
    } else {
      assert xs + ys == ys;
    }
  }

  lemma RegisterOne(m: map<string, Descriptor>, r: Reg, a: Action)
    requires ParseAction(r.action) == Some(a)
    ensures Register(m, [r]) == m[NameOf(r) := Descriptor(a, r.resource, r.parents)]
  {
    assert [r][1..] == [];
  }

  /** A name no triple generates keeps its old entry, or stays absent. */
  lemma {:induction false} RegisterElsewhere(m: map<string, Descriptor>, regs: seq<Reg>, name: string)
    requires forall i :: 0 <= i < |regs| ==> NameOf(regs[i]) != name
    ensures name in Register(m, regs) <==> name in m
    ensures name in m ==> Register(m, regs)[name] == m[name]
    decreases regs
  {
    if regs != [] {
      match ParseAction(regs[0].action)
      case None =>
      case Some(a) =>
        RegisterElsewhere(m[NameOf(regs[0]) := Descriptor(a, regs[0].resource, regs[0].parents)], regs[1..], name);
    }
  }

  lemma AllKnownTail(regs: seq<Reg>)
    requires regs != [] && AllKnown(regs)
    ensures IsKnown(regs[0]) && AllKnown(regs[1..])
  {
    assert forall k :: 0 <= k < |regs[1..]| ==> regs[1..][k] == regs[k + 1];
  }

  /** When every action is known, the later of two triples with the same
      name wins: the entry under a name is the last triple that generates
      it. */
  lemma {:induction false} RegisterLastWins(m: map<string, Descriptor>, regs: seq<Reg>, i: nat)
    requires AllKnown(regs)
    requires i < |regs|
    requires forall j :: i < j < |regs| ==> NameOf(regs[j]) != NameOf(regs[i])
    ensures NameOf(regs[i]) in Register(m, regs)
    ensures Register(m, regs)[NameOf(regs[i])]
         == Descriptor(ParseAction(regs[i].action).value, regs[i].resource, regs[i].parents)
    decreases regs
  {
    var a := ParseAction(regs[0].action).value;
    var m' := m[NameOf(regs[0]) := Descriptor(a, regs[0].resource, regs[0].parents)];
    AllKnownTail(regs);
    assert Register(m, regs) == Register(m', regs[1..]);
    if i == 0 {
      RegisterElsewhere(m', regs[1..], NameOf(regs[0]));
    } else {
      RegisterLastWins(m', regs[1..], i - 1);
    }
  }

  /** With every action known, the names a walk registers are the old ones
      plus exactly one per triple. */
  lemma {:induction false} RegisterKeys(m: map<string, Descriptor>, regs: seq<Reg>)
    requires AllKnown(regs)
    ensures Register(m, regs).Keys == m.Keys + set i | 0 <= i < |regs| :: NameOf(regs[i])
    decreases regs
  {
    if regs != [] {
      var a := ParseAction(regs[0].action).value;
      var m' := m[NameOf(regs[0]) := Descriptor(a, regs[0].resource, regs[0].parents)];
      AllKnownTail(regs);
      RegisterKeys(m', regs[1..]);
      NamesCons(regs);
    }
  }

  lemma NamesCons(regs: seq<Reg>)
    requires regs != []
    ensures (set i | 0 <= i < |regs| :: NameOf(regs[i]))
         == {NameOf(regs[0])} + set i | 0 <= i < |regs[1..]| :: NameOf(regs[1..][i])
  {
    var rest := set i | 0 <= i < |regs[1..]| :: NameOf(regs[1..][i]);
    var all := set i | 0 <= i < |regs| :: NameOf(regs[i]);
    forall x | x in all ensures x in {NameOf(regs[0])} + rest {
      var i :| 0 <= i < |regs| && x == NameOf(regs[i]);
      if i > 0 { assert x == NameOf(regs[1..][i - 1]); }
    }
    forall x | x in rest ensures x in all {
      var i :| 0 <= i < |regs[1..]| && x == NameOf(regs[1..][i]);
      assert x == NameOf(regs[i + 1]);
    }
  }


  // The shape of the walk.

  /** Every triple of a spec carries the chain the walk started from as a
      prefix of its own chain. */
  lemma {:induction false} SpecRegsKeepChain(s: Spec, parents: seq<string>)
    ensures forall r :: r in SpecRegs(s, parents) ==> parents <= r.parents
    decreases s, |s.resources| + 1
  {
    ResourcesRegsKeepChain(s, |s.resources|, parents);
  }

  lemma {:induction false} ResourcesRegsKeepChain(s: Spec, n: nat, parents: seq<string>)
    requires n <= |s.resources|
    ensures forall r :: r in ResourcesRegs(s, n, parents) ==> parents <= r.parents
    decreases s, n
  {
    if n > 0 {
      ResourcesRegsKeepChain(s, n - 1, parents);
      ResourceChain(s.resources[n - 1], |s.resources[n - 1].entries|, parents);
    }
  }

  /** Inside one resource, an action string is registered with exactly the
      enclosing chain, and anything under a nested spec with that chain
      extended by exactly this resource: a sibling's name never enters it. */
  lemma {:induction false} ResourceChain(res: Resource, n: nat, parents: seq<string>)
    requires n <= |res.entries|
    ensures forall r :: r in EntriesRegs(res, n, parents) ==>
      r.parents == parents || parents + [res.name] <= r.parents
    decreases res, n
  {
    if n > 0 {
      ResourceChain(res, n - 1, parents);
      match res.entries[n - 1]
      case Act(_) =>
      case Nested(sub) =>
        SpecRegsKeepChain(sub, parents + [res.name]);
    }
  }

  lemma {:induction false} ResourcesRegsGrow(s: Spec, n: nat, k: nat, parents: seq<string>)
    requires n <= k <= |s.resources|
    ensures ResourcesRegs(s, n, parents) <= ResourcesRegs(s, k, parents)
    decreases k
  {
    if n < k {
      ResourcesRegsGrow(s, n, k - 1, parents);
    }
  }

  lemma {:induction false} EntriesRegsGrow(res: Resource, n: nat, k: nat, parents: seq<string>)
    requires n <= k <= |res.entries|
    ensures EntriesRegs(res, n, parents) <= EntriesRegs(res, k, parents)
    decreases k
  {
    if n < k {
      EntriesRegsGrow(res, n, k - 1, parents);
    }
  }

  /** What the walk has done before entry `j` of resource `i` is where the
      full walk of the spec begins. */
  lemma WalkPrefix(s: Spec, i: nat, j: nat, parents: seq<string>)
    requires i < |s.resources| && j <= |s.resources[i].entries|
    ensures ResourcesRegs(s, i, parents) + EntriesRegs(s.resources[i], j, parents) <= SpecRegs(s, parents)
  {
    var res := s.resources[i];
    EntriesRegsGrow(res, j, |res.entries|, parents);
    ResourcesRegsGrow(s, i + 1, |s.resources|, parents);
  }

  /** Every action of a resource, and every triple of every spec nested in
      it, is met by the walk of the enclosing spec: methods are generated
      at every depth. */
  lemma WalkCovers(s: Spec, i: nat, j: nat, parents: seq<string>)
    requires i < |s.resources| && j < |s.resources[i].entries|
    ensures var res := s.resources[i];
      var e := res.entries[j];
      && (e.Act? ==> Reg(e.action, res.name, parents) in SpecRegs(s, parents))
      && (e.Nested? ==> forall r :: r in SpecRegs(e.spec, parents + [res.name]) ==> r in SpecRegs(s, parents))
  {
    WalkPrefix(s, i, j + 1, parents);
    var res := s.resources[i];
    var here := EntryRegs(res.name, res.entries[j], parents);
    var done := ResourcesRegs(s, i, parents) + EntriesRegs(res, j, parents);
    assert done + here == ResourcesRegs(s, i, parents) + EntriesRegs(res, j + 1, parents);
    forall r | r in here ensures r in SpecRegs(s, parents) {
      var k :| 0 <= k < |here| && here[k] == r;
      assert (done + here)[|done| + k] == r;
    }
    if res.entries[j].Act? {
      assert here[0] == Reg(res.entries[j].action, res.name, parents);
    }
  }

  // Where a triple occurs in a spec, read off the spec's own structure.

  /** `r` is an action string of some resource of `s` under the chain
      `parents`, or occurs in a spec nested in such a resource under the
      chain extended by that resource. */
  predicate Occurs(s: Spec, parents: seq<string>, r: Reg)
    decreases s
  {
    exists i, j :: 0 <= i < |s.resources| && 0 <= j < |s.resources[i].entries|
      && OccursIn(s.resources[i].name, s.resources[i].entries[j], parents, r)
  }

  predicate OccursIn(name: string, e: Entry, parents: seq<string>, r: Reg)
    decreases e
  {
    match e
    case Act(a) => r == Reg(a, name, parents)
    case Nested(sub) => Occurs(sub, parents + [name], r)
  }

  /** Every occurrence, at any depth, is met by the walk. */
  lemma {:induction false} OccurrenceIsWalked(s: Spec, parents: seq<string>, r: Reg)
    requires Occurs(s, parents, r)
    ensures r in SpecRegs(s, parents)
    decreases s
  {
    var i, j :| 0 <= i < |s.resources| && 0 <= j < |s.resources[i].entries|
      && OccursIn(s.resources[i].name, s.resources[i].entries[j], parents, r);
    var res := s.resources[i];
    WalkCovers(s, i, j, parents);
    match res.entries[j]
    case Act(_) =>
    case Nested(sub) =>
      OccurrenceIsWalked(sub, parents + [res.name], r);
  }

  /** Every triple the walk meets occurs in the spec. */
  lemma {:induction false} WalkedOccurs(s: Spec, parents: seq<string>, r: Reg)
    requires r in SpecRegs(s, parents)
    ensures Occurs(s, parents, r)
    decreases s, 2, 0
  {
    ResourcesOccur(s, |s.resources|, parents, r);
  }

  lemma {:induction false} ResourcesOccur(s: Spec, n: nat, parents: seq<string>, r: Reg)
    requires n <= |s.resources| && r in ResourcesRegs(s, n, parents)
    ensures Occurs(s, parents, r)
    decreases s, 1, n
  {
    var res := s.resources[n - 1];
    if r in ResourcesRegs(s, n - 1, parents) {
      ResourcesOccur(s, n - 1, parents, r);
    } else {
      EntriesOccur(s, n - 1, |res.entries|, parents, r);
    }
  }

  lemma {:induction false} EntriesOccur(s: Spec, i: nat, k: nat, parents: seq<string>, r: Reg)
    requires i < |s.resources| && k <= |s.resources[i].entries|
    requires r in EntriesRegs(s.resources[i], k, parents)
    ensures Occurs(s, parents, r)
    decreases s, 0, k
  {
    var res := s.resources[i];
    if r in EntriesRegs(res, k - 1, parents) {
      EntriesOccur(s, i, k - 1, parents, r);
    } else {
      var e := res.entries[k - 1];
      match e
      case Act(a) =>
        assert OccursIn(res.name, e, parents, r);
      case Nested(sub) =>
        WalkedOccurs(sub, parents + [res.name], r);
        assert OccursIn(res.name, e, parents, r);
    }
  }

  /** The walk meets exactly the triples that occur in the spec, at every
      depth, each with the chain of resources it is nested in. */
  lemma WalkIsOccurrences(s: Spec, parents: seq<string>, r: Reg)
    ensures r in SpecRegs(s, parents) <==> Occurs(s, parents, r)
  {
    if r in SpecRegs(s, parents) {
      WalkedOccurs(s, parents, r);
    }
    if Occurs(s, parents, r) {
      OccurrenceIsWalked(s, parents, r);
    }
  }

  /** When the whole walk succeeds, every action string of the spec, at
      every depth, has a method under its generated name. */
  lemma WalkDefinesEveryAction(m: map<string, Descriptor>, s: Spec, parents: seq<string>, r: Reg)
    requires AllKnown(SpecRegs(s, parents))
    requires Occurs(s, parents, r)
    ensures NameOf(r) in Register(m, SpecRegs(s, parents))
  {
    var regs := SpecRegs(s, parents);
    OccurrenceIsWalked(s, parents, r);
    var k :| 0 <= k < |regs| && regs[k] == r;
    RegisterKeys(m, regs);
    assert NameOf(regs[k]) in set x | 0 <= x < |regs| :: NameOf(regs[x]);
  }

  /** One resource of a spec's walk: the state after it is the fold of
      the triples so far, and when the resource fails the walk of the
      whole spec fails with that same state. */
  lemma ResourceStep(m0: map<string, Descriptor>, before: map<string, Descriptor>, after: map<string, Descriptor>,
                     ok: bool, spec: Spec, i: nat, parents: seq<string>)
    requires i < |spec.resources|
    requires AllKnown(ResourcesRegs(spec, i, parents)) && before == Register(m0, ResourcesRegs(spec, i, parents))
    requires ok == AllKnown(EntriesRegs(spec.resources[i], |spec.resources[i].entries|, parents))
    requires after == Register(before, EntriesRegs(spec.resources[i], |spec.resources[i].entries|, parents))
    ensures ok ==> AllKnown(ResourcesRegs(spec, i + 1, parents)) && after == Register(m0, ResourcesRegs(spec, i + 1, parents))
    ensures !ok ==> !AllKnown(SpecRegs(spec, parents))
    ensures !ok ==> after == Register(m0, SpecRegs(spec, parents))
  {
    var done := ResourcesRegs(spec, i, parents);
    var here := EntriesRegs(spec.resources[i], |spec.resources[i].entries|, parents);
    assert done + here == ResourcesRegs(spec, i + 1, parents);
    RegisterAppend(m0, done, here);
    AllKnownAppend(done, here);
    if !ok {
      ResourcesRegsGrow(spec, i + 1, |spec.resources|, parents);
      StoppedWalk(m0, done, here, SpecRegs(spec, parents));
    }
  }

  /** One entry of a resource's walk: the state after it is the fold of
      the triples so far, and when the entry fails the walk of the whole
      resource fails with that same state. */
  lemma EntryStep(m0: map<string, Descriptor>, before: map<string, Descriptor>, after: map<string, Descriptor>,
                  ok: bool, res: Resource, j: nat, parents: seq<string>)
    requires j < |res.entries|
    requires AllKnown(EntriesRegs(res, j, parents)) && before == Register(m0, EntriesRegs(res, j, parents))
    requires ok == AllKnown(EntryRegs(res.name, res.entries[j], parents))
    requires after == Register(before, EntryRegs(res.name, res.entries[j], parents))
    ensures ok ==> AllKnown(EntriesRegs(res, j + 1, parents)) && after == Register(m0, EntriesRegs(res, j + 1, parents))
    ensures !ok ==> !AllKnown(EntriesRegs(res, |res.entries|, parents))
    ensures !ok ==> after == Register(m0, EntriesRegs(res, |res.entries|, parents))
  {
    var done := EntriesRegs(res, j, parents);
    var here := EntryRegs(res.name, res.entries[j], parents);
    assert done + here == EntriesRegs(res, j + 1, parents);
    RegisterAppend(m0, done, here);
    AllKnownAppend(done, here);
    if !ok {
      EntriesRegsGrow(res, j + 1, |res.entries|, parents);
      StoppedWalk(m0, done, here, EntriesRegs(res, |res.entries|, parents));
    }
  }

  lemma AllKnownAppend(xs: seq<Reg>, ys: seq<Reg>)
    ensures AllKnown(xs + ys) <==> AllKnown(xs) && AllKnown(ys)
  {
    if AllKnown(xs) && AllKnown(ys) {
      forall k | 0 <= k < |xs + ys| ensures IsKnown((xs + ys)[k]) {
        if k >= |xs| { assert (xs + ys)[k] == ys[k - |xs|]; }
      }
    }
    if AllKnown(xs + ys) {
      forall k | 0 <= k < |xs| ensures IsKnown(xs[k]) {
        assert (xs + ys)[k] == xs[k];
      }
      forall k | 0 <= k < |ys| ensures IsKnown(ys[k]) {
        assert (xs + ys)[|xs| + k] == ys[k];
      }
    }
  }

  /** Walking from a point where an action turned out unknown: the map the
      walk leaves is the one the full fold over the spec gives. */
  lemma StoppedWalk(m0: map<string, Descriptor>, done: seq<Reg>, failed: seq<Reg>, all: seq<Reg>)
    requires AllKnown(done) && !AllKnown(failed)
    requires done + failed <= all
    ensures !AllKnown(all)
    ensures Register(Register(m0, done), failed) == Register(m0, all)
  {
    var rest := all[|done + failed|..];
    assert all == done + (failed + rest);
    assert all == (done + failed) + rest;
    RegisterAppend(m0, done, failed + rest);
    RegisterAppend(Register(m0, done), failed, rest);
    var k :| 0 <= k < |failed| && !IsKnown(failed[k]);
    assert all[|done| + k] == failed[k];
  }

  /** A service handle: the API it talks to, its base URL, and the methods
      registered on it by name. */
  class ServiceHandle {
    const api: string
    const version: string
    const url: string
    var methods: map<string, Descriptor>

    /** The fields the `GAPI` constructor sets before it walks the spec. */
    constructor (api: string, version: string)
      ensures this.api == api && this.version == version
      ensures url == BaseUrl(api, version)
      ensures methods == map[]
    {
      this.api := api;
      this.version := version;
      this.url := BaseUrl(api, version);
      methods := map[];
    }

    /** `createMethods(this, spec, parents)`: registers every triple of the
        spec in walk order; returns false where the walk throws because an
        action names no request builder, with the entries registered up to
        that point left in place. */
    method CreateMethods(spec: Spec, parents: seq<string>) returns (ok: bool)
      modifies this
      ensures ok == AllKnown(SpecRegs(spec, parents))
      ensures methods == Register(old(methods), SpecRegs(spec, parents))
      decreases spec
    {
      ghost var m0 := methods;
      var i := 0;
      while i < |spec.resources|
        invariant 0 <= i <= |spec.resources|
        invariant AllKnown(ResourcesRegs(spec, i, parents))
        invariant methods == Register(m0, ResourcesRegs(spec, i, parents))
      {
        ghost var before := methods;
        var resource := spec.resources[i];
        ok := CreateResourceMethods(resource, parents);
        ResourceStep(m0, before, methods, ok, spec, i, parents);
        if !ok {
          return;
        }
        i := i + 1;
      }
      ok := true;
    }

    /** The body of the walk for one resource: each of its entries in turn,
        recursing into a nested spec with the chain extended by this
        resource (`parents.concat([resource])`, a fresh list). */
    method CreateResourceMethods(resource: Resource, parents: seq<string>) returns (ok: bool)
      modifies this
      ensures ok == AllKnown(EntriesRegs(resource, |resource.entries|, parents))
      ensures methods == Register(old(methods), EntriesRegs(resource, |resource.entries|, parents))
      decreases resource
    {
      ghost var m0 := methods;
      var j := 0;
      while j < |resource.entries|
        invariant 0 <= j <= |resource.entries|
        invariant AllKnown(EntriesRegs(resource, j, parents))
        invariant methods == Register(m0, EntriesRegs(resource, j, parents))
      {
        ghost var before := methods;
        var entry := resource.entries[j];
        if entry.Nested? {
          ok := CreateMethods(entry.spec, parents + [resource.name]);
        } else {
          var a := ParseAction(entry.action);
          ok := a.Some?;
          ghost var reg := Reg(entry.action, resource.name, parents);
          assert EntryRegs(resource.name, entry, parents) == [reg];
          assert AllKnown([reg]) <==> IsKnown([reg][0]);
          if ok {
            methods := methods[MethodName(entry.action, resource.name) := Descriptor(a.value, resource.name, parents)];
            RegisterOne(before, Reg(entry.action, resource.name, parents), a.value);
          }
        }
        EntryStep(m0, before, methods, ok, resource, j, parents);
        if !ok {
          return;
        }
        j := j + 1;
      }
      ok := true;
    }

    /** Calling `service[name](...args)`: nothing when no method has that
        name (the call throws), otherwise the request the method sends,
        which always goes below the service's URL. */
    function Call(name: string, args: seq<Arg>): (e: Option<Envelope>)
      reads this
      ensures e.Some? <==> name in methods
      ensures e.Some? ==> |url| <= |e.value.url| && e.value.url[..|url|] == url
    {
      if name in methods then
        var d := methods[name];
        InvokeUrl(d, url, args);
        UrlStartsWithBase(args, d.parents, url, d.resource);
        Some(Invoke(d, url, args))
      else None
    }
  }

  /** `new GAPI(api, version, spec)`: a handle with every method of the
      spec, or nothing when the walk throws. */
  method NewService(api: string, version: string, spec: Spec) returns (service: Option<ServiceHandle>)
    ensures service.Some? <==> AllKnown(SpecRegs(spec, []))
    ensures service.Some? ==> fresh(service.value)
    ensures service.Some? ==> service.value.api == api && service.value.version == version
    ensures service.Some? ==> service.value.url == BaseUrl(api, version)
    ensures service.Some? ==> service.value.methods == Register(map[], SpecRegs(spec, []))
  {
    var s := new ServiceHandle(api, version);
    var ok := s.CreateMethods(spec, []);
    service := if ok then Some(s) else None;
  }

  /** The options object a request is made from: the verb, URL and body
      of its envelope, its query bag (which the signing helpers may
      replace), and its headers, absent until a header is set. */
  class RequestConfig {
    const verb: Verb
    const url: string
    const data: Arg
    var params: Arg
    var headers: Option<map<string, string>>

    constructor (envelope: Envelope)
      ensures verb == envelope.verb && url == envelope.url && data == envelope.data
      ensures params == envelope.params && headers == None
    {
      verb := envelope.verb;
      url := envelope.url;
      data := envelope.data;
      params := envelope.params;
      headers := None;
    }

    /** `oauthHeader(options)`: creates the headers when they are absent
        and sets the bearer authorization, leaving other headers alone. */
    method OauthHeader(token: string)
      modifies this
      ensures params == old(params)
      ensures headers.Some? && "Authorization" in headers.value
      ensures headers.value["Authorization"] == "Bearer " + token
      ensures old(headers).None? ==> headers.value.Keys == {"Authorization"}
      ensures old(headers).Some? ==> headers.value.Keys == old(headers).value.Keys + {"Authorization"}
      ensures old(headers).Some? ==>
        forall k :: k in old(headers).value && k != "Authorization" ==> headers.value[k] == old(headers).value[k]
    {
      if headers.None? {
        headers := Some(map[]);
      }
      headers := Some(headers.value["Authorization" := "Bearer " + token]);
    }

    /** `oauthParams(options)`, which nothing in the library calls: a
        falsy bag is replaced by a fresh object, and the token is stored
        under `access_token`, keeping the bag's other keys. A truthy bag that is not an object cannot take a
        property in strict mode: the call throws and nothing changes. */
    method OauthParams(token: string) returns (ok: bool)
      modifies this
      ensures headers == old(headers)
      ensures ok <==> !Truthy(old(params)) || old(params).Obj?
      ensures !ok ==> params == old(params)
      ensures ok ==> params.Obj? && "access_token" in params.fields && params.fields["access_token"] == token
      ensures ok && !Truthy(old(params)) ==> params.fields.Keys == {"access_token"}
      ensures ok && old(params).Obj? ==> params.fields == old(params).fields["access_token" := token]
    {
      if !Truthy(params) {
        params := Obj(map[]);
      }
      if !params.Obj? {
        return false;
      }
      params := Obj(params.fields["access_token" := token]);
      ok := true;
    }
  }
}
