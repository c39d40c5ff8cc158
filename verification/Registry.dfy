/** The provider registry: the list of providers and its two indexes. */
module Registries {
  import opened GatewayModel

  datatype Provider = Provider(name: string, models: seq<string>)

  // ----- The indexes as functions of the list -----

  function Copies(p: Provider, n: nat): (s: seq<Provider>)
  {
    if n == 0 then [] else Copies(p, n - 1) + [p]
  }

  function Listings(models: seq<string>, m: string): nat
  {
    if |models| == 0 then 0
    else Listings(models[..|models| - 1], m) + (if models[|models| - 1] == m then 1 else 0)
  }

  /** The providers of a model in registration order, once for each time a provider lists it. */
  ghost function ForModel(ps: seq<Provider>, m: string): (s: seq<Provider>)
  {
    if |ps| == 0 then [] else ForModel(ps[..|ps| - 1], m) + Copies(ps[|ps| - 1], Listings(ps[|ps| - 1].models, m))
  }

  /** The last registered provider of a name. */
  ghost function Named(ps: seq<Provider>, name: string): Option<Provider>
  {
    if |ps| == 0 then None
    else if ps[|ps| - 1].name == name then Some(ps[|ps| - 1])
    else Named(ps[..|ps| - 1], name)
  }

  /** The providers that list the model, in registration order. */
  ghost function Listing(ps: seq<Provider>, m: string): (s: seq<Provider>)
  {
    if |ps| == 0 then [] else Listing(ps[..|ps| - 1], m) + (if m in ps[|ps| - 1].models then [ps[|ps| - 1]] else [])
  }

  lemma {:induction false} ListingsCounts(models: seq<string>, m: string)
    ensures Listings(models, m) > 0 <==> m in models
  {
    if |models| > 0 {
      ListingsCounts(models[..|models| - 1], m);
      assert models == models[..|models| - 1] + [models[|models| - 1]];
    }
  }

  lemma {:induction false} CopiesMembers(p: Provider, n: nat)
    ensures |Copies(p, n)| == n
    ensures forall q :: q in Copies(p, n) <==> n > 0 && q == p
  {
    if n > 0 {
      CopiesMembers(p, n - 1);
    }
  }

  /** A model's index holds exactly the registered providers that list it. */
  lemma {:induction false} ForModelMembers(ps: seq<Provider>, m: string)
    ensures forall p :: p in ForModel(ps, m) <==> p in ps && m in p.models
  {
    if |ps| > 0 {
      var last := ps[|ps| - 1];
      ForModelMembers(ps[..|ps| - 1], m);
      CopiesMembers(last, Listings(last.models, m));
      ListingsCounts(last.models, m);
      assert ps == ps[..|ps| - 1] + [last];
    }
  }

  lemma {:induction false} ForModelSize(ps: seq<Provider>, m: string)
    ensures |ForModel(ps, m)| >= |Listing(ps, m)|
    ensures |ForModel(ps, m)| == |Listing(ps, m)| <==> forall p :: p in ps ==> Listings(p.models, m) <= 1
  {
    if |ps| > 0 {
      var init, last := ps[..|ps| - 1], ps[|ps| - 1];
      ForModelSize(init, m);
      CopiesMembers(last, Listings(last.models, m));
      ListingsCounts(last.models, m);
      assert ps == init + [last];
      assert (forall p :: p in ps ==> Listings(p.models, m) <= 1)
        <==> (forall p :: p in init ==> Listings(p.models, m) <= 1) && Listings(last.models, m) <= 1;
    }
  }

  /** The index is the filter of the list exactly when no provider lists the model twice. */
  lemma {:induction false} ForModelIsFilterIff(ps: seq<Provider>, m: string)
    ensures ForModel(ps, m) == Listing(ps, m) <==> forall p :: p in ps ==> Listings(p.models, m) <= 1
  {
    ForModelSize(ps, m);
    if forall p :: p in ps ==> Listings(p.models, m) <= 1 {
      OnceEach(ps, m);
    }
  }

  /** A provider that lists a model twice stands twice in its index. */
  lemma ListedTwiceIndexedTwice(p: Provider, m: string)
    requires p.models == [m, m]
    ensures ForModel([p], m) == [p, p] && Listing([p], m) == [p]
  {
    assert [m, m][..1] == [m] && [m][..0] == [] && [p][..0] == [];
    assert Listings([m], m) == 1 && Listings([m, m], m) == 2;
    assert Copies(p, 1) == [p] && Copies(p, 2) == [p, p];
  }

  lemma {:induction false} OnceEach(ps: seq<Provider>, m: string)
    requires forall p :: p in ps ==> Listings(p.models, m) <= 1
    ensures ForModel(ps, m) == Listing(ps, m)
  {
    if |ps| > 0 {
      var init, last := ps[..|ps| - 1], ps[|ps| - 1];
      assert last in ps;
      OnceEach(init, m);
      ListingsCounts(last.models, m);
      assert Copies(last, 1) == Copies(last, 0) + [last];
    }
  }

  function IndexOf(byModel: map<string, seq<Provider>>, m: string): seq<Provider>
  {
    if m in byModel then byModel[m] else []
  }

  /** `after` is `before` with one more entry of `p` for every listed model. */
  ghost predicate IndexGrew(before: map<string, seq<Provider>>, after: map<string, seq<Provider>>, p: Provider,
                            models: seq<string>)
  {
    forall m :: IndexOf(after, m) == IndexOf(before, m) + Copies(p, Listings(models, m))
  }

  lemma ListingsNext(models: seq<string>, i: nat, m: string, p: Provider)
    requires i < |models|
    ensures Copies(p, Listings(models[..i + 1], m))
         == if m == models[i] then Copies(p, Listings(models[..i], m)) + [p] else Copies(p, Listings(models[..i], m))
  {
    assert models[..i + 1][..i] == models[..i];
  }

  lemma IndexGrowsOne(before: map<string, seq<Provider>>, was: map<string, seq<Provider>>,
                      after: map<string, seq<Provider>>, p: Provider, i: nat)
    requires i < |p.models| && IndexGrew(before, was, p, p.models[..i])
    requires after == was[p.models[i] := IndexOf(was, p.models[i]) + [p]]
    ensures IndexGrew(before, after, p, p.models[..i + 1])
  {
    hide Copies;
    hide Listings;
    forall m
      ensures IndexOf(after, m) == IndexOf(before, m) + Copies(p, Listings(p.models[..i + 1], m))
    {
      ListingsNext(p.models, i, m, p);
      assert IndexOf(was, m) == IndexOf(before, m) + Copies(p, Listings(p.models[..i], m));
    }
  }

  ghost predicate NamesIndexed(ps: seq<Provider>, byName: map<string, Provider>)
  {
    forall n :: Named(ps, n) == if n in byName then Some(byName[n]) else None
  }

  ghost predicate ModelsIndexed(ps: seq<Provider>, byModel: map<string, seq<Provider>>)
  {
    forall m :: ForModel(ps, m) == IndexOf(byModel, m)
  }

  lemma NamesStayIndexed(ps: seq<Provider>, byName: map<string, Provider>, p: Provider)
    requires NamesIndexed(ps, byName)
    ensures NamesIndexed(ps + [p], byName[p.name := p])
  {
    assert (ps + [p])[..|ps|] == ps;
  }

  lemma ModelsStayIndexed(ps: seq<Provider>, before: map<string, seq<Provider>>, after: map<string, seq<Provider>>,
                          p: Provider)
    requires ModelsIndexed(ps, before) && IndexGrew(before, after, p, p.models)
    ensures ModelsIndexed(ps + [p], after)
  {
    assert (ps + [p])[..|ps|] == ps;
  }

  // ----- The class -----

  class Registry {
    var providers: seq<Provider>
    var byName: map<string, Provider>
    var byModel: map<string, seq<Provider>>

    ghost predicate Valid()
      reads this
    {
      NamesIndexed(providers, byName) && ModelsIndexed(providers, byModel)
    }

    constructor ()
      ensures Valid() && providers == []
    {
      providers, byName, byModel := [], map[], map[];
    }

    /** Appends the provider to the index of every model it lists. */
    method IndexModels(p: Provider)
      modifies this`byModel
      ensures IndexGrew(old(byModel), byModel, p, p.models)
    {
      ghost var before := byModel;
      for i := 0 to |p.models|
        invariant IndexGrew(before, byModel, p, p.models[..i])
      {
        ghost var was := byModel;
        byModel := byModel[p.models[i] := IndexOf(byModel, p.models[i]) + [p]];
        IndexGrowsOne(before, was, byModel, p, i);
      }
      assert p.models[..|p.models|] == p.models;
    }

    method Register(p: Provider)
      requires Valid()
      modifies this
      ensures Valid() && providers == old(providers) + [p]
    {
      ghost var ps, index := providers, byModel;
      NamesStayIndexed(providers, byName, p);
      providers := providers + [p];
      byName := byName[p.name := p];
      IndexModels(p);
      ModelsStayIndexed(ps, index, byModel, p);
    }

    method Providers() returns (out: seq<Provider>)
      ensures out == providers
    {
      out := providers;
    }

    method ProvidersForModel(m: string) returns (out: seq<Provider>)
      requires Valid()
      ensures out == ForModel(providers, m)
    {
      out := IndexOf(byModel, m);
    }

    method ProviderByName(name: string) returns (out: Option<Provider>)
      requires Valid()
      ensures out == Named(providers, name)
    {
      out := if name in byName then Some(byName[name]) else None;
    }
  }

  /** The last registered provider of a name is the one found; there is none exactly when nobody has the name. */
  lemma {:induction false} NamedIsLast(ps: seq<Provider>, name: string, i: nat)
    requires i < |ps| && ps[i].name == name && forall j :: i < j < |ps| ==> ps[j].name != name
    ensures Named(ps, name) == Some(ps[i])
  {
    if i < |ps| - 1 {
      NamedIsLast(ps[..|ps| - 1], name, i);
    }
  }

  lemma {:induction false} NobodyNamed(ps: seq<Provider>, name: string)
    ensures Named(ps, name) == None <==> forall p :: p in ps ==> p.name != name
  {
    if |ps| > 0 {
      NobodyNamed(ps[..|ps| - 1], name);
      assert ps == ps[..|ps| - 1] + [ps[|ps| - 1]];
    }
  }
}
