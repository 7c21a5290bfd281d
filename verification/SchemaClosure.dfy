/** The schemas the admin API keeps: those its paths reach, over a reference graph that may be
    cyclic (`main` in scripts/admin_openapi.py). */
module SchemaClosure {
  import opened Json

  type Schemas = map<string, Value>

  /** Which names each defined schema references. */
  type Graph = map<string, set<string>>

  function GraphOf(schemas: Schemas): (g: Graph)
    ensures g.Keys == schemas.Keys && forall n | n in schemas :: g[n] == Refs(schemas[n])
  {
    map n | n in schemas :: Refs(schemas[n])
  }

  datatype Kept = Kept(names: set<string>) | KeyError(name: string)

  /** `s` holds the roots, and with a schema those it references. */
  ghost predicate Closed(s: set<string>, roots: set<string>, g: Graph) {
    roots <= s && forall n | n in s && n in g :: g[n] <= s
  }

  /** In every closed set, and so reached from the roots. */
  ghost predicate Reached(n: string, roots: set<string>, g: Graph) {
    forall s: set<string> | Closed(s, roots, g) :: n in s
  }

  ghost predicate AllReached(s: set<string>, roots: set<string>, g: Graph) {
    forall n | n in s :: Reached(n, roots, g)
  }

  lemma RefsReached(n: string, roots: set<string>, g: Graph)
    requires Reached(n, roots, g) && n in g
    ensures AllReached(g[n], roots, g)
  {
    forall m | m in g[n] ensures Reached(m, roots, g) {
      forall s: set<string> | Closed(s, roots, g) ensures m in s {
        assert n in s;
      }
    }
  }

  /** All names that occur. */
  function Universe(roots: set<string>, g: Graph): (u: set<string>) {
    roots + set n, m | n in g && m in g[n] :: m
  }

  /** The names that are reached are a closed set, the least. */
  lemma Least(roots: set<string>, g: Graph) returns (s: set<string>)
    ensures Closed(s, roots, g) && AllReached(s, roots, g)
    ensures forall n :: n in s <==> Reached(n, roots, g)
  {
    var u := Universe(roots, g);
    assert Closed(u, roots, g);
    s := set n | n in u && Reached(n, roots, g);
    forall n | n in s && n in g ensures g[n] <= s {
      RefsReached(n, roots, g);
    }
  }

  method Listed(s: set<string>) returns (l: seq<string>)
    ensures |l| == |s| && forall x :: x in l <==> x in s
  {
    l := [];
    var left := s;
    while left != {}
      invariant left <= s && |l| + |left| == |s|
      invariant forall x :: x in l <==> x in s && x !in left
      decreases |left|
    {
      var x :| x in left;
      l := l + [x];
      left := left - {x};
    }
  }

  lemma {:induction false} Subset(a: set<string>, b: set<string>)
    requires a <= b
    ensures |a| <= |b|
    decreases |a|
  {
    if a != {} {
      var x :| x in a;
      Subset(a - {x}, b - {x});
    }
  }

  lemma Shrinks(u: set<string>, keep: set<string>, more: set<string>)
    requires more <= u && more - keep != {}
    ensures |u - (keep + more)| < |u - keep|
  {
    var x :| x in more - keep;
    Subset(u - (keep + more), (u - keep) - {x});
  }

  /** The worklist: what is kept is reached, and what is kept and no longer pending has been
      looked up and its references are kept. */
  ghost predicate Working(keep: set<string>, pending: seq<string>, roots: set<string>, g: Graph) {
    && roots <= keep && AllReached(keep, roots, g)
    && (forall n | n in pending :: n in keep)
    && (forall n | n in keep && n !in pending :: n in g && g[n] <= keep)
  }

  lemma StartWorking(pending: seq<string>, roots: set<string>, g: Graph)
    requires forall x :: x in pending <==> x in roots
    ensures Working(roots, pending, roots, g)
  {
  }

  lemma Worked(keep: set<string>, pending: seq<string>, more: seq<string>, roots: set<string>, g: Graph)
    requires Working(keep, pending, roots, g) && pending != [] && pending[|pending| - 1] in g
    requires forall x :: x in more <==> x in g[pending[|pending| - 1]] - keep
    ensures Working(keep + g[pending[|pending| - 1]], pending[..|pending| - 1] + more, roots, g)
  {
    var name := pending[|pending| - 1];
    RefsReached(name, roots, g);
    assert forall n | n in pending :: n == name || n in pending[..|pending| - 1];
  }

  /** Each round keeps a new name or takes one off the list. */
  lemma Progress(keep: set<string>, pending: seq<string>, more: seq<string>, found: set<string>, u: set<string>)
    requires pending != [] && found <= u && |more| == |found - keep|
    ensures |u - (keep + found)| < |u - keep|
            || (keep + found == keep && |pending[..|pending| - 1] + more| < |pending|)
  {
    if found - keep != {} {
      Shrinks(u, keep, found);
    } else {
      forall x | x in found ensures x in keep {
        assert x in found - keep || x in keep;
      }
    }
  }

  /** The worklist ends, on cyclic references too.  It keeps exactly the schemas that are reached
      when all of them are defined, and then no reference under the paths or a kept schema dangles;
      otherwise it fails on a name that is reached and not defined. */
  method Keep(paths: Value, schemas: Schemas) returns (r: Kept)
    ensures r.Kept? ==> forall n :: n in r.names <==> Reached(n, Refs(paths), GraphOf(schemas))
    ensures r.Kept? ==> Refs(paths) <= r.names <= schemas.Keys && forall m | m in r.names :: Refs(schemas[m]) <= r.names
    ensures r.KeyError? ==> r.name !in schemas && Reached(r.name, Refs(paths), GraphOf(schemas))
  {
    ghost var roots, g := Refs(paths), GraphOf(schemas);
    ghost var u := Universe(roots, g);
    var keep := RefsOf(paths);
    var pending := Listed(keep);
    StartWorking(pending, roots, g);
    while pending != []
      invariant Working(keep, pending, roots, g)
      decreases |u - keep|, |pending|
    {
      var name := pending[|pending| - 1];
      if name !in schemas { return KeyError(name); }
      var found := RefsOf(schemas[name]);
      var more := Listed(found - keep);
      Worked(keep, pending, more, roots, g);
      Progress(keep, pending, more, found, u);
      pending := pending[..|pending| - 1] + more;
      keep := keep + found;
    }
    return Kept(keep);
  }
}
