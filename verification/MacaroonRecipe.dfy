/** MacaroonRecipe: the permissions needed for the methods of the given client packages. */
module MacaroonRecipe {
  import opened Wrappers
  import opened Permissions

  datatype RecipeMethod = RecipeMethod(pkg: string, name: string)

  datatype RpcMethod = RpcMethod(pkg: string, service: string, name: string) {
    function Uri(): string {
      "/" + pkg + "." + service + "/" + name
    }
  }

  /** A client interface: the name of its server, and its methods in the order of reflection. */
  datatype Subserver = Subserver(serverName: string, methods: seq<string>)

  datatype Tables = Tables(subservers: map<string, Subserver>, renames: map<string, string>,
                           overrides: map<RecipeMethod, seq<RpcMethod>>, ignores: seq<string>)

  datatype Err = ListFailed | UnknownSubserver(pkg: string) | UriNotFound(uri: string)

  type Listed = map<string, seq<Op>>

  function Renamed(t: Tables, name: string): string {
    if name in t.renames then t.renames[name] else name
  }

  /** The RPCs that a client method is made of. */
  function RpcsOf(t: Tables, pkg: string, name: string): seq<RpcMethod>
    requires pkg in t.subservers
  {
    if Renamed(t, name) in t.ignores then []
    else if RecipeMethod(pkg, name) in t.overrides then t.overrides[RecipeMethod(pkg, name)]
    else [RpcMethod(pkg, t.subservers[pkg].serverName, Renamed(t, name))]
  }

  // ---- what a recipe is, without an order ----

  ghost predicate NeedsRpc(t: Tables, pkg: string, rpc: RpcMethod) {
    pkg in t.subservers && exists name :: name in t.subservers[pkg].methods && rpc in RpcsOf(t, pkg, name)
  }

  ghost predicate PackageKnown(t: Tables, listed: Listed, pkg: string) {
    pkg in t.subservers && forall rpc | NeedsRpc(t, pkg, rpc) :: rpc.Uri() in listed
  }

  /** Some method of the package needs the operation. */
  ghost predicate PackageNeeds(t: Tables, listed: Listed, pkg: string, op: Op) {
    exists rpc: RpcMethod :: NeedsRpc(t, pkg, rpc) && rpc.Uri() in listed && op in listed[rpc.Uri()]
  }

  /** The list holds, once each, the operations needed by the packages. */
  ghost predicate IsRecipe(t: Tables, listed: Listed, packages: seq<string>, ops: seq<Op>) {
    && NoDuplicates(ops)
    && forall op :: op in ops <==> exists pkg :: pkg in packages && PackageNeeds(t, listed, pkg, op)
  }

  // ---- the algorithm ----

  /** The RPCs of the package's first n methods, in the order in which they are looked up. */
  function Lookups(t: Tables, pkg: string, n: nat): seq<RpcMethod>
    requires pkg in t.subservers && n <= |t.subservers[pkg].methods|
  {
    if n == 0 then [] else Lookups(t, pkg, n - 1) + RpcsOf(t, pkg, t.subservers[pkg].methods[n - 1])
  }

  lemma {:induction false} LookupsAre(t: Tables, pkg: string, n: nat, rpc: RpcMethod)
    requires pkg in t.subservers && n <= |t.subservers[pkg].methods|
    ensures rpc in Lookups(t, pkg, n)
      <==> exists name :: name in t.subservers[pkg].methods[..n] && rpc in RpcsOf(t, pkg, name)
  {
    if n > 0 {
      var methods := t.subservers[pkg].methods;
      LookupsAre(t, pkg, n - 1, rpc);
      assert methods[..n] == methods[..n - 1] + [methods[n - 1]];
    }
  }

  predicate AllListed(listed: Listed, rpcs: seq<RpcMethod>) {
    forall rpc | rpc in rpcs :: rpc.Uri() in listed
  }

  /** The uri of the first RPC that is not listed. */
  predicate FirstMissing(listed: Listed, rpcs: seq<RpcMethod>, uri: string) {
    exists k | 0 <= k < |rpcs| :: rpcs[k].Uri() == uri && uri !in listed && AllListed(listed, rpcs[..k])
  }

  function OpsOf(listed: Listed, rpcs: seq<RpcMethod>): set<Op> {
    set rpc, op | rpc in rpcs && rpc.Uri() in listed && op in listed[rpc.Uri()] :: op
  }

  lemma Extend(listed: Listed, before: seq<RpcMethod>, rpc: RpcMethod)
    requires AllListed(listed, before)
    ensures rpc.Uri() in listed ==> AllListed(listed, before + [rpc])
    ensures rpc.Uri() in listed ==> OpsOf(listed, before + [rpc]) == OpsOf(listed, before) + Elements(listed[rpc.Uri()])
    ensures rpc.Uri() !in listed ==> FirstMissing(listed, before + [rpc], rpc.Uri())
  {
    var all := before + [rpc];
    if rpc.Uri() !in listed {
      assert all[|before|] == rpc && all[..|before|] == before;
    }
    assert forall r :: r in all <==> r in before || r == rpc;
  }

  lemma StillMissing(listed: Listed, rpcs: seq<RpcMethod>, more: seq<RpcMethod>, uri: string)
    requires FirstMissing(listed, rpcs, uri)
    ensures FirstMissing(listed, rpcs + more, uri)
  {
    var k :| 0 <= k < |rpcs| && rpcs[k].Uri() == uri && uri !in listed && AllListed(listed, rpcs[..k]);
    assert (rpcs + more)[k] == rpcs[k] && (rpcs + more)[..k] == rpcs[..k];
  }

  lemma NextRpc(listed: Listed, earlier: seq<RpcMethod>, rpcs: seq<RpcMethod>, i: nat)
    requires i < |rpcs| && AllListed(listed, earlier + rpcs[..i])
    ensures var before, after, uri := earlier + rpcs[..i], earlier + rpcs[..i + 1], rpcs[i].Uri();
            if uri in listed then
              AllListed(listed, after) && OpsOf(listed, after) == OpsOf(listed, before) + Elements(listed[uri])
            else FirstMissing(listed, earlier + rpcs, uri)
  {
    var before := earlier + rpcs[..i];
    Extend(listed, before, rpcs[i]);
    assert before + [rpcs[i]] == earlier + rpcs[..i + 1];
    if rpcs[i].Uri() !in listed {
      StillMissing(listed, before + [rpcs[i]], rpcs[i + 1..], rpcs[i].Uri());
      assert before + [rpcs[i]] + rpcs[i + 1..] == earlier + rpcs;
    }
  }

  /** The innermost loop, over the RPCs of one method. */
  method AddRpcs(listed: Listed, before: Pairs, rpcs: seq<RpcMethod>, ghost known: set<Op>,
                 ghost earlier: seq<RpcMethod>)
    returns (pairs: Pairs, missing: Option<string>)
    requires AllListed(listed, earlier) && Represents(before, known + OpsOf(listed, earlier))
    ensures missing.None? ==> AllListed(listed, earlier + rpcs)
    ensures missing.None? ==> Represents(pairs, known + OpsOf(listed, earlier + rpcs))
    ensures missing.Some? ==> FirstMissing(listed, earlier + rpcs, missing.value)
  {
    pairs, missing := before, None;
    assert earlier + rpcs[..0] == earlier;
    for i := 0 to |rpcs|
      invariant AllListed(listed, earlier + rpcs[..i])
      invariant Represents(pairs, known + OpsOf(listed, earlier + rpcs[..i]))
    {
      NextRpc(listed, earlier, rpcs, i);
      var uri := rpcs[i].Uri();
      if uri !in listed {
        return pairs, Some(uri);
      }
      ghost var so := known + OpsOf(listed, earlier + rpcs[..i]);
      pairs := AddAll(pairs, listed[uri], so);
      assert known + OpsOf(listed, earlier + rpcs[..i + 1]) == so + Elements(listed[uri]);
    }
    assert rpcs[..|rpcs|] == rpcs;
  }

  function PackageLookups(t: Tables, pkg: string): seq<RpcMethod>
    requires pkg in t.subservers
  {
    Lookups(t, pkg, |t.subservers[pkg].methods|)
  }

  lemma LookupsPrefix(t: Tables, pkg: string, n: nat, m: nat) returns (more: seq<RpcMethod>)
    requires pkg in t.subservers && n <= m <= |t.subservers[pkg].methods|
    ensures Lookups(t, pkg, m) == Lookups(t, pkg, n) + more
  {
    if n == m {
      more := [];
    } else {
      more := LookupsPrefix(t, pkg, n, m - 1);
      more := more + RpcsOf(t, pkg, t.subservers[pkg].methods[m - 1]);
    }
  }

  /** The loop over the methods of one package. */
  method AddPackage(t: Tables, listed: Listed, before: Pairs, pkg: string, ghost known: set<Op>)
    returns (pairs: Pairs, missing: Option<string>)
    requires pkg in t.subservers && Represents(before, known)
    ensures missing.None? ==> AllListed(listed, PackageLookups(t, pkg))
    ensures missing.None? ==> Represents(pairs, known + OpsOf(listed, PackageLookups(t, pkg)))
    ensures missing.Some? ==> FirstMissing(listed, PackageLookups(t, pkg), missing.value)
  {
    var methods := t.subservers[pkg].methods;
    pairs, missing := before, None;
    for i := 0 to |methods|
      invariant missing.None? && AllListed(listed, Lookups(t, pkg, i))
      invariant Represents(pairs, known + OpsOf(listed, Lookups(t, pkg, i)))
    {
      var methodName := Renamed(t, methods[i]);
      if methodName in t.ignores {
        continue;
      }
      var rpcs := [RpcMethod(pkg, t.subservers[pkg].serverName, methodName)];
      if RecipeMethod(pkg, methods[i]) in t.overrides {
        rpcs := t.overrides[RecipeMethod(pkg, methods[i])];
      }
      assert Lookups(t, pkg, i + 1) == Lookups(t, pkg, i) + rpcs;
      pairs, missing := AddRpcs(listed, pairs, rpcs, known, Lookups(t, pkg, i));
      if missing.Some? {
        ghost var more := LookupsPrefix(t, pkg, i + 1, |methods|);
        StillMissing(listed, Lookups(t, pkg, i + 1), more, missing.value);
        return;
      }
    }
  }

  lemma PackageOps(t: Tables, listed: Listed, pkg: string)
    requires pkg in t.subservers
    ensures forall rpc :: rpc in PackageLookups(t, pkg) <==> NeedsRpc(t, pkg, rpc)
    ensures AllListed(listed, PackageLookups(t, pkg)) <==> PackageKnown(t, listed, pkg)
    ensures forall op :: op in OpsOf(listed, PackageLookups(t, pkg)) <==> PackageNeeds(t, listed, pkg, op)
  {
    var methods := t.subservers[pkg].methods;
    assert methods[..|methods|] == methods;
    forall rpc
      ensures rpc in PackageLookups(t, pkg) <==> NeedsRpc(t, pkg, rpc)
    {
      LookupsAre(t, pkg, |methods|, rpc);
    }
  }

  /** The k-th package is the first one with something unknown, and this is the error for it. */
  ghost predicate FailsAt(t: Tables, listed: Listed, packages: seq<string>, k: nat, e: Err)
    requires k < |packages|
  {
    && (forall i | 0 <= i < k :: PackageKnown(t, listed, packages[i]))
    && if packages[k] !in t.subservers then e == UnknownSubserver(packages[k])
       else e.UriNotFound? && FirstMissing(listed, PackageLookups(t, packages[k]), e.uri)
  }

  /** What MacaroonRecipe answers: a recipe if everything is known, and the first thing that is not
      otherwise. */
  ghost predicate Recipes(t: Tables, list: Result<Listed, Err>, packages: seq<string>, r: Result<seq<Op>, Err>) {
    if list.Failure? then r == Failure(ListFailed)
    else if r.Success? then
      && (forall pkg | pkg in packages :: PackageKnown(t, list.value, pkg))
      && IsRecipe(t, list.value, packages, r.value)
    else exists k: nat :: k < |packages| && FailsAt(t, list.value, packages, k, r.error)
  }

  method Recipe(t: Tables, list: Result<Listed, Err>, packages: seq<string>) returns (r: Result<seq<Op>, Err>)
    ensures Recipes(t, list, packages, r)
  {
    if list.Failure? {
      return Failure(ListFailed);
    }
    var listed := list.value;
    var pairs: Pairs := map[];
    ghost var known: set<Op> := {};
    for i := 0 to |packages|
      invariant forall j | 0 <= j < i :: PackageKnown(t, listed, packages[j])
      invariant Represents(pairs, known)
      invariant forall op :: op in known <==> exists j :: 0 <= j < i && PackageNeeds(t, listed, packages[j], op)
    {
      var pkg := packages[i];
      if pkg !in t.subservers {
        assert FailsAt(t, listed, packages, i, UnknownSubserver(pkg));
        return Failure(UnknownSubserver(pkg));
      }
      var missing;
      pairs, missing := AddPackage(t, listed, pairs, pkg, known);
      if missing.Some? {
        assert FailsAt(t, listed, packages, i, UriNotFound(missing.value));
        return Failure(UriNotFound(missing.value));
      }
      PackageOps(t, listed, pkg);
      known := known + OpsOf(listed, PackageLookups(t, pkg));
    }
    var ops := Flatten(pairs, known);
    assert forall op :: op in ops <==> op in Elements(ops);
    return Success(ops);
  }

  // ---- what a recipe depends on ----

  /** There is a failure exactly if a package or one of its URIs is unknown, and only one. */
  lemma FailsExactly(t: Tables, listed: Listed, packages: seq<string>)
    ensures (exists pkg :: pkg in packages && !PackageKnown(t, listed, pkg))
      <==> exists k: nat, e :: k < |packages| && FailsAt(t, listed, packages, k, e)
    ensures forall k: nat, l: nat, d, e | k < |packages| && l < |packages| ::
              FailsAt(t, listed, packages, k, d) && FailsAt(t, listed, packages, l, e) ==> k == l && d == e
  {
    forall k: nat, e | k < |packages| && FailsAt(t, listed, packages, k, e)
      ensures !PackageKnown(t, listed, packages[k])
    {
      FailureIsUnknown(t, listed, packages, k, e);
    }
    if exists pkg :: pkg in packages && !PackageKnown(t, listed, pkg) {
      var k, e := FirstFailure(t, listed, packages);
    }
    forall k: nat, l: nat, d, e | k < |packages| && l < |packages|
        && FailsAt(t, listed, packages, k, d) && FailsAt(t, listed, packages, l, e)
      ensures k == l && d == e
    {
      FailureIsUnknown(t, listed, packages, k, d);
      FailureIsUnknown(t, listed, packages, l, e);
      if packages[k] in t.subservers {
        OneFirstMissing(listed, PackageLookups(t, packages[k]), d.uri, e.uri);
      }
    }
  }

  lemma FailureIsUnknown(t: Tables, listed: Listed, packages: seq<string>, k: nat, e: Err)
    requires k < |packages| && FailsAt(t, listed, packages, k, e)
    ensures !PackageKnown(t, listed, packages[k])
  {
    if packages[k] in t.subservers {
      PackageOps(t, listed, packages[k]);
    }
  }

  lemma OneFirstMissing(listed: Listed, rpcs: seq<RpcMethod>, d: string, e: string)
    requires FirstMissing(listed, rpcs, d) && FirstMissing(listed, rpcs, e)
    ensures d == e
  {
    var k :| 0 <= k < |rpcs| && rpcs[k].Uri() == d && d !in listed && AllListed(listed, rpcs[..k]);
    var l :| 0 <= l < |rpcs| && rpcs[l].Uri() == e && e !in listed && AllListed(listed, rpcs[..l]);
    ListedBefore(listed, rpcs, k, l);
    ListedBefore(listed, rpcs, l, k);
  }

  lemma ListedBefore(listed: Listed, rpcs: seq<RpcMethod>, k: nat, l: nat)
    requires k < |rpcs| && l < |rpcs| && AllListed(listed, rpcs[..l])
    ensures k < l ==> rpcs[k].Uri() in listed
  {
    if k < l {
      assert rpcs[..l][k] == rpcs[k];
    }
  }

  lemma {:induction false} SomeFirstMissing(listed: Listed, rpcs: seq<RpcMethod>) returns (uri: string)
    requires !AllListed(listed, rpcs)
    ensures FirstMissing(listed, rpcs, uri)
  {
    var n := |rpcs| - 1;
    assert rpcs == rpcs[..n] + [rpcs[n]];
    if AllListed(listed, rpcs[..n]) {
      uri := rpcs[n].Uri();
    } else {
      uri := SomeFirstMissing(listed, rpcs[..n]);
      StillMissing(listed, rpcs[..n], [rpcs[n]], uri);
    }
  }

  lemma FirstFailure(t: Tables, listed: Listed, packages: seq<string>) returns (k: nat, e: Err)
    requires exists pkg :: pkg in packages && !PackageKnown(t, listed, pkg)
    ensures k < |packages| && FailsAt(t, listed, packages, k, e)
  {
    k := 0;
    while PackageKnown(t, listed, packages[k])
      invariant k < |packages| && forall i | 0 <= i < k :: PackageKnown(t, listed, packages[i])
      decreases |packages| - k
    {
      k := k + 1;
    }
    if packages[k] in t.subservers {
      PackageOps(t, listed, packages[k]);
      var uri := SomeFirstMissing(listed, PackageLookups(t, packages[k]));
      e := UriNotFound(uri);
    } else {
      e := UnknownSubserver(packages[k]);
    }
  }

  /** Neither the order nor the repetition of packages matters, nor the order in which Go visits a
      map: recipes of the same packages hold the same operations, equally many. */
  lemma SamePackagesSameRecipe(t: Tables, listed: Listed, packages: seq<string>, others: seq<string>,
                               ops: seq<Op>, otherOps: seq<Op>)
    requires forall pkg :: pkg in packages <==> pkg in others
    requires IsRecipe(t, listed, packages, ops) && IsRecipe(t, listed, others, otherOps)
    ensures Elements(ops) == Elements(otherOps) && |ops| == |otherOps|
  {
    assert Elements(ops) == Elements(otherOps) by {
      forall op ensures op in ops <==> op in otherOps {}
    }
    CountElements(ops);
    CountElements(otherOps);
  }

  /** A recipe for more packages is the union of their recipes. */
  lemma RecipeOfBoth(t: Tables, listed: Listed, packages: seq<string>, others: seq<string>,
                     ops: seq<Op>, otherOps: seq<Op>, all: seq<Op>)
    requires IsRecipe(t, listed, packages, ops) && IsRecipe(t, listed, others, otherOps)
    requires IsRecipe(t, listed, packages + others, all)
    ensures Elements(all) == Elements(ops) + Elements(otherOps)
  {
    forall op
      ensures op in all <==> op in ops || op in otherOps
    {
      assert forall pkg :: pkg in packages + others <==> pkg in packages || pkg in others;
    }
  }

  // ---- which permissions a method brings, without the names of the model ----

  /** The answer for packages that need no more than these URIs. */
  lemma RecipeOfUris(t: Tables, listed: Listed, pkg: string, uris: set<string>, r: Result<seq<Op>, Err>)
    requires pkg in t.subservers && Recipes(t, Success(listed), [pkg], r)
    requires forall uri :: uri in uris <==> exists rpc: RpcMethod :: NeedsRpc(t, pkg, rpc) && rpc.Uri() == uri
    ensures r.Success? <==> forall uri | uri in uris :: uri in listed
    ensures r.Success? ==>
              forall op :: op in r.value <==> exists uri :: uri in uris && uri in listed && op in listed[uri]
    ensures r.Failure? ==> r.error.UriNotFound? && r.error.uri in uris && r.error.uri !in listed
  {
    PackageOps(t, listed, pkg);
    if r.Success? {
      assert PackageKnown(t, listed, [pkg][0]);
      forall op
        ensures op in r.value <==> exists uri :: uri in uris && uri in listed && op in listed[uri]
      {
        assert op in r.value <==> PackageNeeds(t, listed, pkg, op);
      }
    } else {
      FailureIsUnknown(t, listed, [pkg], 0, r.error);
      var rpcs := PackageLookups(t, pkg);
      var k :| 0 <= k < |rpcs| && rpcs[k].Uri() == r.error.uri && r.error.uri !in listed;
      assert NeedsRpc(t, pkg, rpcs[k]);
    }
  }

  /** A package with one method, which is neither overridden nor ignored: what is looked up is its name,
      or the name that it is renamed to, in the package's own service. */
  lemma OneMethodRecipe(t: Tables, listed: Listed, pkg: string, m: string, r: Result<seq<Op>, Err>)
    requires pkg in t.subservers && t.subservers[pkg].methods == [m] && RecipeMethod(pkg, m) !in t.overrides
    requires (if m in t.renames then t.renames[m] else m) !in t.ignores
    requires Recipes(t, Success(listed), [pkg], r)
    ensures var name := if m in t.renames then t.renames[m] else m;
            var uri := "/" + pkg + "." + t.subservers[pkg].serverName + "/" + name;
            && (r.Success? <==> uri in listed)
            && (r.Success? ==> NoDuplicates(r.value) && forall op :: op in r.value <==> op in listed[uri])
            && (r.Failure? ==> r.error == UriNotFound(uri))
  {
    var rpc := RpcMethod(pkg, t.subservers[pkg].serverName, if m in t.renames then t.renames[m] else m);
    assert RpcsOf(t, pkg, m) == [rpc];
    assert NeedsRpc(t, pkg, rpc);
    RecipeOfUris(t, listed, pkg, {rpc.Uri()}, r);
  }

  /** A package with one method, which is overridden: what is looked up is just the RPCs of the override. */
  lemma OverriddenRecipe(t: Tables, listed: Listed, pkg: string, m: string, r: Result<seq<Op>, Err>)
    requires pkg in t.subservers && t.subservers[pkg].methods == [m] && RecipeMethod(pkg, m) in t.overrides
    requires (if m in t.renames then t.renames[m] else m) !in t.ignores
    requires Recipes(t, Success(listed), [pkg], r)
    ensures var uris := set x | x in t.overrides[RecipeMethod(pkg, m)] :: "/" + x.pkg + "." + x.service + "/" + x.name;
            && (r.Success? <==> forall uri | uri in uris :: uri in listed)
            && (r.Success? ==>
                  && NoDuplicates(r.value)
                  && forall op :: op in r.value <==> exists uri :: uri in uris && uri in listed && op in listed[uri])
  {
    var rpcs := t.overrides[RecipeMethod(pkg, m)];
    assert RpcsOf(t, pkg, m) == rpcs;
    assert forall rpc :: NeedsRpc(t, pkg, rpc) <==> rpc in rpcs;
    var uris := set x | x in rpcs :: "/" + x.pkg + "." + x.service + "/" + x.name;
    forall uri
      ensures uri in uris <==> exists rpc: RpcMethod :: NeedsRpc(t, pkg, rpc) && rpc.Uri() == uri
    {
      if uri in uris {
        var x :| x in rpcs && uri == "/" + x.pkg + "." + x.service + "/" + x.name;
        assert NeedsRpc(t, pkg, x) && x.Uri() == uri;
      }
    }
    RecipeOfUris(t, listed, pkg, uris, r);
  }

  lemma Nothing(ops: seq<Op>)
    requires Elements(ops) == {}
    ensures ops == []
  {
    CountElements(ops);
    assert forall i | 0 <= i < |ops| :: ops[i] in Elements(ops);
  }

  /** A method that is ignored needs nothing. */
  lemma IgnoredRecipe(t: Tables, listed: Listed, pkg: string, m: string, r: Result<seq<Op>, Err>)
    requires pkg in t.subservers && t.subservers[pkg].methods == [m]
    requires (if m in t.renames then t.renames[m] else m) in t.ignores
    requires Recipes(t, Success(listed), [pkg], r)
    ensures r == Success([])
  {
    assert RpcsOf(t, pkg, m) == [];
    RecipeOfUris(t, listed, pkg, {}, r);
    assert Elements(r.value) == {};
    Nothing(r.value);
  }

  /** A package with more methods needs what each of them alone would need. */
  lemma MethodByMethod(t: Tables, listed: Listed, pkg: string, op: Op)
    requires pkg in t.subservers
    ensures PackageNeeds(t, listed, pkg, op)
      <==> exists m :: m in t.subservers[pkg].methods && PackageNeeds(OnlyMethod(t, pkg, m), listed, pkg, op)
    ensures PackageKnown(t, listed, pkg)
      <==> forall m | m in t.subservers[pkg].methods :: PackageKnown(OnlyMethod(t, pkg, m), listed, pkg)
  {
    forall m | m in t.subservers[pkg].methods
      ensures forall rpc :: NeedsRpc(OnlyMethod(t, pkg, m), pkg, rpc) <==> rpc in RpcsOf(t, pkg, m)
    {
      OnlyMethodNeeds(t, pkg, m);
    }
  }

  function OnlyMethod(t: Tables, pkg: string, m: string): Tables
    requires pkg in t.subservers
  {
    t.(subservers := t.subservers[pkg := t.subservers[pkg].(methods := [m])])
  }

  lemma OnlyMethodNeeds(t: Tables, pkg: string, m: string)
    requires pkg in t.subservers
    ensures forall rpc :: NeedsRpc(OnlyMethod(t, pkg, m), pkg, rpc) <==> rpc in RpcsOf(t, pkg, m)
  {
    assert RpcsOf(OnlyMethod(t, pkg, m), pkg, m) == RpcsOf(t, pkg, m);
  }

  // ---- the tables of the library ----

  const RENAMES: map<string, string> := map[
    "ChannelBackup" := "ExportChannelBackup",
    "ChannelBackups" := "ExportAllChannelBackups",
    "ConfirmedWalletBalance" := "WalletBalance",
    "Connect" := "ConnectPeer",
    "DecodePaymentRequest" := "DecodePayReq",
    "ListTransactions" := "GetTransactions",
    "UpdateChanPolicy" := "UpdateChannelPolicy",
    "NetworkInfo" := "GetNetworkInfo",
    "SubscribeGraph" := "SubscribeChannelGraph",
    "InterceptHtlcs" := "HtlcInterceptor",
    "ImportMissionControl" := "XImportMissionControl",
    "EstimateFeeRate" := "EstimateFee",
    "EstimateFeeToP2WSH" := "EstimateFee",
    "EstimateRouteFeeWithProbe" := "EstimateRouteFee",
    "OpenChannelStream" := "OpenChannel",
    "ListSweepsVerbose" := "ListSweeps",
    "MinRelayFee" := "EstimateFee",
    "SignOutputRawKeyLocator" := "SignOutputRaw"
  ]

  const PAY_INVOICE := RecipeMethod("lnrpc", "PayInvoice")

  const PAY_INVOICE_RPCS := [RpcMethod("routerrpc", "Router", "SendPaymentV2"),
                             RpcMethod("routerrpc", "Router", "TrackPaymentV2")]

  /** The tables, but for the methods of the interfaces, which are found by reflection. */
  function LibraryTables(subservers: map<string, Subserver>): Tables {
    Tables(subservers, RENAMES, map[PAY_INVOICE := PAY_INVOICE_RPCS], ["RawClientWithMacAuth"])
  }

  /** PayInvoice is the one method whose RPCs are not in the service of its own package, and
      RawClientWithMacAuth the one that needs none. */
  lemma LibraryRpcs(subservers: map<string, Subserver>, pkg: string, name: string)
    requires pkg in subservers
    ensures var rpcs := RpcsOf(LibraryTables(subservers), pkg, name);
            && (RecipeMethod(pkg, name) == PAY_INVOICE ==> rpcs == PAY_INVOICE_RPCS)
            && (RecipeMethod(pkg, name) != PAY_INVOICE && name != "RawClientWithMacAuth" ==>
                  |rpcs| == 1 && rpcs[0].pkg == pkg && rpcs[0].service == subservers[pkg].serverName
                  && rpcs[0].name == if name in RENAMES then RENAMES[name] else name)
            && (rpcs == [] <==> name == "RawClientWithMacAuth")
  {
  }
}
