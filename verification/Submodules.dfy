/** Matching the declared submodules of a checkout against its gitlinks and the bound checkouts. */
module Submodules {
  import opened Basics

  // A declaration's `path` and `url`; an absent field reads as the empty string.
  datatype Module = Module(path: string, url: string)
  datatype Checkout = Checkout(path: string, url: string, ref: string)

  // URL and path handling of the environment: parsing to a normal form, resolving against the base, joining.
  datatype Rules = Rules(repository: string -> Option<string>, resolve: (string, string) -> Option<string>,
                         inWorkspace: string -> bool, join: (string, string) -> string)

  // The normal form of the address a module declares, if it has one.
  function Address(rules: Rules, base: string, m: Module): Option<string> {
    var absolute := if "./" <= m.url || "../" <= m.url then rules.resolve(base, m.url) else Some(m.url);
    if absolute.None? then None else rules.repository(absolute.value)
  }

  ghost predicate Bound(rules: Rules, parent: Checkout, checkouts: seq<Checkout>, path: string, url: string,
                        commit: string) {
    Checkout(rules.join(parent.path, path), url, commit) in checkouts
  }

  // What one declaration must satisfy, whatever the others are.
  ghost predicate Acceptable(rules: Rules, parent: Checkout, checkouts: seq<Checkout>, base: string,
                             links: map<string, string>, m: Module) {
    && m.path in links && m.url != "" && m.path != "." && '\\' !in m.path && rules.inWorkspace(m.path)
    && var url := Address(rules, base, m);
       url.Some? && Bound(rules, parent, checkouts, m.path, url.value, links[m.path])
  }

  ghost predicate DistinctPaths(modules: map<string, Module>) {
    forall a, b | a in modules && b in modules && modules[a].path == modules[b].path :: a == b
  }

  // The declarations cover the gitlinks one to one, and each is acceptable on its own.
  ghost predicate Matching(rules: Rules, parent: Checkout, checkouts: seq<Checkout>, links: map<string, string>,
                           modules: map<string, Module>) {
    var base := rules.repository(parent.url);
    && base.Some?
    && DistinctPaths(modules)
    && (forall path :: path in links <==> exists name :: name in modules && modules[name].path == path)
    && (forall name | name in modules :: Acceptable(rules, parent, checkouts, base.value, links, modules[name]))
  }

  method FindCheckout(checkouts: seq<Checkout>, wanted: Checkout) returns (bound: bool)
    ensures bound <==> wanted in checkouts
  {
    bound := false;
    for k := 0 to |checkouts|
      invariant !bound && wanted !in checkouts[..k]
    {
      if checkouts[k] == wanted { return true; }
    }
  }

  // The checks of one loop iteration, against the gitlinks not yet consumed.
  method Check(rules: Rules, parent: Checkout, checkouts: seq<Checkout>, base: string, links: map<string, string>,
               m: Module)
    returns (ok: bool)
    ensures ok <==> Acceptable(rules, parent, checkouts, base, links, m)
  {
    if m.path !in links || m.url == "" || m.path == "." || '\\' in m.path { return false; }
    if !rules.inWorkspace(m.path) { return false; }
    var address := Some(m.url);
    if "./" <= m.url || "../" <= m.url {
      address := rules.resolve(base, m.url);
      if address.None? { return false; }
    }
    var url := rules.repository(address.value);
    if url.None? { return false; }
    ok := FindCheckout(checkouts, Checkout(rules.join(parent.path, m.path), url.value, links[m.path]));
  }

  // The visited declarations have distinct, acceptable paths, and exactly their gitlinks are consumed.
  ghost predicate Consumed(rules: Rules, parent: Checkout, checkouts: seq<Checkout>, base: string,
                           gitlinks: map<string, string>,
                           modules: map<string, Module>, seen: set<string>, links: map<string, string>) {
    && seen <= modules.Keys
    && (forall a, b | a in seen && b in seen && modules[a].path == modules[b].path :: a == b)
    && (forall name | name in seen :: Acceptable(rules, parent, checkouts, base, gitlinks, modules[name]))
    && (forall path | path in links :: path in gitlinks && links[path] == gitlinks[path])
    && (forall path | path in gitlinks :: path in links <==> forall name | name in seen :: modules[name].path != path)
  }

  // One iteration: a declaration that fails its check settles the question; one that passes is consumed.
  lemma Visit(rules: Rules, parent: Checkout, checkouts: seq<Checkout>, base: string, gitlinks: map<string, string>,
              modules: map<string, Module>, seen: set<string>, links: map<string, string>, name: string)
    requires Consumed(rules, parent, checkouts, base, gitlinks, modules, seen, links)
    requires name in modules && name !in seen && rules.repository(parent.url) == Some(base)
    ensures var m := modules[name];
      if Acceptable(rules, parent, checkouts, base, links, m)
      then Consumed(rules, parent, checkouts, base, gitlinks, modules, seen + {name}, links - {m.path})
      else !Matching(rules, parent, checkouts, gitlinks, modules)
  {
    var m := modules[name];
    if m.path !in links && m.path in gitlinks {
      var other :| other in seen && modules[other].path == m.path;
      assert !DistinctPaths(modules);
    } else if Acceptable(rules, parent, checkouts, base, links, m) {
      var less := links - {m.path};
      forall path | path in gitlinks
        ensures path in less <==> forall n | n in seen + {name} :: modules[n].path != path
      {
        if path in less {
          assert path in links;
        } else if path != m.path {
          assert path !in links;
        } else {
          assert name in seen + {name};
        }
      }
    } else {
      assert !Acceptable(rules, parent, checkouts, base, gitlinks, m);
    }
  }

  lemma AllVisited(rules: Rules, parent: Checkout, checkouts: seq<Checkout>, base: string,
                   gitlinks: map<string, string>,
                   modules: map<string, Module>, links: map<string, string>)
    requires Consumed(rules, parent, checkouts, base, gitlinks, modules, modules.Keys, links)
    requires rules.repository(parent.url) == Some(base)
    ensures links == map[] <==> Matching(rules, parent, checkouts, gitlinks, modules)
  {
    if links != map[] {
      var path :| path in links;
      assert path in gitlinks;
    } else {
      forall path ensures path in gitlinks <==> exists name :: name in modules && modules[name].path == path {
        if path in gitlinks { assert path !in links; }
      }
    }
  }

  // matchBuildpacksSubmodules: the map is visited in an arbitrary order and gitlinks are deleted on the
  // way; the verdict is a fact about the declarations alone.
  method MatchBuildpacksSubmodules(rules: Rules, parent: Checkout, checkouts: seq<Checkout>,
                                   gitlinks: map<string, string>,
                                   modules: map<string, Module>) returns (ok: bool)
    ensures ok <==> Matching(rules, parent, checkouts, gitlinks, modules)
  {
    var parsed := rules.repository(parent.url);
    if parsed.None? { return false; }
    var base, links, rest := parsed.value, gitlinks, modules.Keys;
    ghost var seen: set<string> := {};
    while rest != {}
      invariant rest == modules.Keys - seen
      invariant Consumed(rules, parent, checkouts, base, gitlinks, modules, seen, links)
      decreases rest
    {
      var name :| name in rest;
      Visit(rules, parent, checkouts, base, gitlinks, modules, seen, links, name);
      var accepted := Check(rules, parent, checkouts, base, links, modules[name]);
      if !accepted { return false; }
      links := links - {modules[name].path};
      rest := rest - {name};
      seen := seen + {name};
    }
    AllVisited(rules, parent, checkouts, base, gitlinks, modules, links);
    return links == map[];
  }

  // A success pairs declarations and gitlinks one to one.
  lemma {:induction false} OneDeclarationPerLink(gitlinks: map<string, string>, modules: map<string, Module>)
    requires DistinctPaths(modules)
    requires forall path :: path in gitlinks <==> exists name :: name in modules && modules[name].path == path
    ensures |modules| == |gitlinks|
    decreases |modules|
  {
    if modules == map[] {
      assert gitlinks.Keys == {};
    } else {
      var name :| name in modules;
      var path := modules[name].path;
      var fewer, left := modules - {name}, gitlinks - {path};
      assert path in gitlinks;
      assert fewer.Keys == modules.Keys - {name} && left.Keys == gitlinks.Keys - {path};
      forall p ensures p in left <==> exists n :: n in fewer && fewer[n].path == p {
        if p in left {
          var n :| n in modules && modules[n].path == p;
          assert n in fewer;
        }
      }
      OneDeclarationPerLink(left, fewer);
    }
  }
}
