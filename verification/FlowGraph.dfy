/** `ContextFlowGraph`: collecting templates and freezing them. */
module FlowGraph {
  import opened Common
  import opened Paths

  datatype FreezeOutcome =
    | Frozen
    | SuffixConflict
    | MissingSibling(sibling: Scope)
    | Recursive

  // ----- Sorting

  function Insert(t: Template, ts: seq<Template>): (r: seq<Template>) {
    if ts == [] || RevLeq(t.path, ts[0].path) then [t] + ts
    else [ts[0]] + Insert(t, ts[1..])
  }

  /** The sort of the template list, reverse-lexicographically by path. */
  function Sort(ts: seq<Template>): (r: seq<Template>) {
    if ts == [] then [] else Insert(ts[0], Sort(ts[1..]))
  }

  lemma {:induction false} InsertKeeps(t: Template, ts: seq<Template>)
    ensures multiset(Insert(t, ts)) == multiset([t] + ts)
  {
    if ts == [] || RevLeq(t.path, ts[0].path) {
    } else {
      InsertKeeps(t, ts[1..]);
      assert ts == [ts[0]] + ts[1..];
    }
  }

  lemma MemberOfSame(a: seq<Template>, b: seq<Template>, i: nat)
    requires multiset(a) == multiset(b) && i < |a|
    ensures a[i] in b
  {
    assert a[i] in multiset(b);
  }

  lemma SortedCons(t: Template, ts: seq<Template>)
    requires Sorted(PathsOf(ts)) && (ts != [] ==> RevLeq(t.path, ts[0].path))
    ensures Sorted(PathsOf([t] + ts))
  {
    var all, ps := PathsOf([t] + ts), PathsOf(ts);
    forall i, j | 0 <= i < j < |all|
      ensures RevLeq(all[i], all[j])
    {
      assert all[j] == ps[j - 1];
      if i == 0 {
        if j > 1 {
          assert RevLeq(ps[0], ps[j - 1]);
          RevLeqTransitive(t.path, ps[0], ps[j - 1]);
        }
      } else {
        assert all[i] == ps[i - 1];
      }
    }
  }

  lemma {:induction false} InsertSorted(t: Template, ts: seq<Template>)
    requires Sorted(PathsOf(ts))
    ensures Sorted(PathsOf(Insert(t, ts)))
  {
    if ts == [] || RevLeq(t.path, ts[0].path) {
      SortedCons(t, ts);
    } else {
      var rest := Insert(t, ts[1..]);
      var ps := PathsOf(ts);
      assert PathsOf(ts[1..]) == ps[1..];
      InsertSorted(t, ts[1..]);
      InsertKeeps(t, ts[1..]);
      RevLessTotal(ts[0].path, t.path);
      if rest[0] != t {
        MemberOfSame(rest, [t] + ts[1..], 0);
        var k :| 0 <= k < |ts[1..]| && ts[1..][k] == rest[0];
        assert ps[k + 1] == rest[0].path && ps[0] == ts[0].path;
      } else {
        RevLessAsymmetric(ts[0].path, t.path);
      }
      SortedCons(ts[0], rest);
    }
  }

  lemma {:induction false} SortSorts(ts: seq<Template>)
    ensures Sorted(PathsOf(Sort(ts))) && multiset(Sort(ts)) == multiset(ts)
  {
    if ts != [] {
      SortSorts(ts[1..]);
      InsertSorted(ts[0], Sort(ts[1..]));
      InsertKeeps(ts[0], Sort(ts[1..]));
      assert ts == [ts[0]] + ts[1..];
    }
  }

  // ----- The graph

  /** All calls on any of the paths. */
  ghost function Calls(ts: seq<Template>): set<Scope> {
    set t, s | t in ts && s in t.path :: s
  }

  ghost function Entries(ts: seq<Template>): set<Scope> {
    set t | t in ts :: t.entry
  }

  /** The scan over neighbouring templates after the sort. */
  method NeighbourScan(ts: seq<Template>) returns (ok: bool)
    requires Sorted(PathsOf(ts))
    ensures ok <==> SuffixFree(PathsOf(ts))
  {
    NeighboursDecideSuffixFree(PathsOf(ts));
    ok := NeighbourPass(ts);
  }

  method NeighbourPass(ts: seq<Template>) returns (ok: bool)
    ensures ok <==> NeighboursOk(PathsOf(ts))
  {
    ghost var ps := PathsOf(ts);
    var i := 1;
    while i < |ts|
      invariant 1 <= i
      invariant forall x, y :: 0 <= x < y < |ps| && y == x + 1 && y < i ==> !IsSuffix(ps[x], ps[y])
    {
      var a, b := ts[i - 1].path, ts[i].path;
      if |a| <= |b| {
        if b[|b| - |a|..] == a {
          assert IsSuffix(ps[i - 1], ps[i]);
          return false;
        }
      }
      i := i + 1;
    }
    return true;
  }

  /** Sorting and scanning finds a conflict exactly when there was one. */
  method SortAndScan(ts: seq<Template>) returns (sorted: seq<Template>, ok: bool)
    ensures multiset(sorted) == multiset(ts) && Sorted(PathsOf(sorted))
    ensures ok <==> SuffixFree(PathsOf(ts))
    ensures ok <==> SuffixFree(PathsOf(sorted))
  {
    sorted := Sort(ts);
    SortSorts(ts);
    ok := NeighbourScan(sorted);
    SuffixFreeIsOrderless(ts);
    SuffixFreeIsOrderless(sorted);
  }

  class ContextFlowGraph {
    const scope: Scope
    var templates: seq<Template>
    var entries: set<Scope>
    var siblings: set<Scope>
    var frozen: bool

    constructor (s: Scope)
      ensures scope == s && templates == [] && entries == {} && siblings == {} && !frozen
    {
      scope, templates, entries, siblings, frozen := s, [], {}, {}, false;
    }

    /** A template must not pass through the graph's own scope. */
    method Add(t: Template)
      requires scope !in t.path
      modifies this`templates
      ensures templates == old(templates) + [t]
    {
      templates := templates + [t];
    }

    /** What every frozen graph guarantees to the factor calculations. */
    ghost predicate IsFrozen()
      reads this
    {
      && frozen
      && Sorted(PathsOf(templates)) && SuffixFree(PathsOf(templates))
      && entries == Entries(templates) && siblings == Calls(templates) && scope !in siblings
    }

    /** Sort, verify, and collect entries and siblings; `known` holds the scopes
      for which a sibling graph can be created. */
    method Freeze(known: set<Scope>) returns (out: FreezeOutcome)
      requires !frozen && entries == {} && siblings == {}
      modifies this
      ensures multiset(templates) == old(multiset(templates)) && Sorted(PathsOf(templates))
      ensures out.SuffixConflict? <==> !SuffixFree(PathsOf(old(templates)))
      ensures out.MissingSibling? <==>
              SuffixFree(PathsOf(old(templates))) && !(Calls(templates) <= known)
      ensures out.MissingSibling? ==> out.sibling in Calls(templates) - known
      ensures out.Recursive? <==>
              SuffixFree(PathsOf(old(templates))) && Calls(templates) <= known && scope in Calls(templates)
      ensures out.Frozen? ==> IsFrozen()
      ensures frozen == out.Frozen?
    {
      var ok;
      templates, ok := SortAndScan(templates);
      if !ok { return SuffixConflict; }
      var missing := CollectSiblings(known);
      if missing.Some? { return MissingSibling(missing.value); }
      if scope in siblings { return Recursive; }
      frozen := true;
      return Frozen;
    }

    /** Fill entries and siblings from all templates, stopping at a call without
      sibling data. */
    method CollectSiblings(known: set<Scope>) returns (missing: Option<Scope>)
      requires entries == {} && siblings == {}
      modifies this`entries, this`siblings
      ensures missing.Some? <==> !(Calls(templates) <= known)
      ensures missing.Some? ==> missing.value in Calls(templates) - known
      ensures missing.None? ==> entries == Entries(templates) && siblings == Calls(templates)
    {
      for i := 0 to |templates|
        invariant templates == old(templates)
        invariant entries == Entries(templates[..i])
        invariant siblings == Calls(templates[..i]) && siblings <= known
      {
        var t := templates[i];
        assert t in templates;
        assert templates[..i + 1] == templates[..i] + [t];
        entries := entries + {t.entry};
        for j := 0 to |t.path|
          invariant templates == old(templates)
          invariant entries == Entries(templates[..i + 1])
          invariant siblings == Calls(templates[..i]) + set s | s in t.path[..j]
          invariant siblings <= known
        {
          var s := t.path[j];
          assert s in t.path;
          assert t.path[..j + 1] == t.path[..j] + [s];
          if s !in siblings {
            if s !in known {
              return Some(s);
            }
            siblings := siblings + {s};
          }
        }
        assert t.path[..|t.path|] == t.path;
      }
      assert templates[..|templates|] == templates;
      return None;
    }
  }
}
