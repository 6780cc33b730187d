/** Recursive rebuilding: each call goes through the dependencies of its foodule, starting a process for
    each that is not yet done and waiting for it, then marks the foodule done and reports it. */
module Rebuild {
  import opened DepGraph
  import opened Options
  import opened RebuildSpec
  import opened RebuildEnds
  import DepGen

  /** The dependencies as the first program reads them: those of the first line that is for u, if any. */
  method ReadDeps(file: seq<Line>, u: nat) returns (deps: seq<nat>)
    ensures FileOk(file) && 1 <= u <= |file| ==> deps == Deps(file, u)
    ensures (forall i | 0 <= i < |file| :: file[i].foodule != u) ==> deps == []
  {
    deps := [];
    var i := 0;
    while i < |file|
      invariant 0 <= i <= |file| && deps == []
      invariant forall k | 0 <= k < i :: file[k].foodule != u
    {
      if file[i].foodule == u {
        deps := file[i].deps;
        break;
      }
      i := i + 1;
    }
  }

  /** As the second program reads them: those of the u-th line, which must be for u. */
  method ReadDep(file: seq<Line>, u: nat) returns (ok: bool, D: seq<nat>)
    requires 1 <= u <= |file|
    ensures ok <==> file[u - 1].foodule == u
    ensures ok ==> D == Deps(file, u)
  {
    ok := file[u - 1].foodule == u;
    D := if ok then file[u - 1].deps else [];
  }

  /** The foodules marked in the done-file. */
  function Marked(done: seq<int>): set<nat> {
    set i | 0 <= i < |done| && done[i] != 0 :: i + 1
  }

  lemma MarkedUpdate(done: seq<int>, i: nat)
    requires i < |done|
    ensures Marked(done[i := 1]) == Marked(done) + {i + 1}
  {
    var after := done[i := 1];
    forall v | v in Marked(done) + {i + 1}
      ensures v in Marked(after)
    {
      assert after[v - 1] != 0 && v == (v - 1) + 1;
    }
  }

  lemma MarkedAt(done: seq<int>, u: nat)
    requires 1 <= u <= |done|
    ensures u in Marked(done) <==> done[u - 1] != 0
  {
    assert u == (u - 1) + 1;
  }

  /** The done-file and the report. */
  class Workspace {
    const file: seq<Line>
    var done: seq<int>
    var log: seq<nat>

    constructor (file: seq<Line>, done: seq<int>)
      ensures this.file == file && this.done == done && log == []
    {
      this.file, this.done, log := file, done, [];
    }

    method InitializeDone(n: nat)
      modifies `done
      ensures |done| == n && Marked(done) == {}
    {
      done := [];
      var i := 0;
      while i < n
        invariant 0 <= i <= n && |done| == i && forall k | 0 <= k < i :: done[k] == 0
      {
        done := done + [0];
        i := i + 1;
      }
    }

    /** The recursion, when it ends with at most `depth` processes waiting for each other: it does what the
        specification says.  The two programs differ in how they read the dependencies of u. */
    method Recur(u: nat, isRoot: bool, strict: bool, ghost depth: nat) returns (ghost added: seq<nat>)
      requires FileOk(file) && 1 <= u <= |file| && (isRoot || |done| == |file|)
      requires Call(file, depth, u, if isRoot then {} else Marked(done)).Some?
      modifies `done, `log
      ensures |done| == |file| && log == old(log) + added
      ensures Call(file, depth, u, if isRoot then {} else old(Marked(done))) == Some(Work(Marked(done), added))
      decreases depth, 0
    {
      if isRoot {
        InitializeDone(|file|);
      }
      ghost var start := log;
      var dependencies;
      if strict {
        var ok;
        ok, dependencies := ReadDep(file, u);
        assert ok;
      } else {
        dependencies := ReadDeps(file, u);
      }
      added := BuildDeps(u, dependencies, strict, depth - 1);
      Finish(u);
      assert start + added + [u] == start + (added + [u]);
      added := added + [u];
    }

    /** Goes through the dependencies of u. */
    method BuildDeps(u: nat, D: seq<nat>, strict: bool, ghost depth: nat) returns (ghost added: seq<nat>)
      requires FileOk(file) && 1 <= u <= |file| && D == Deps(file, u) && |done| == |file|
      requires CallDeps(file, depth, D, 0, Marked(done)).Some?
      modifies `done, `log
      ensures |done| == |file| && log == old(log) + added
      ensures CallDeps(file, depth, D, 0, old(Marked(done))) == Some(Work(Marked(done), added))
      decreases depth, 2
    {
      ghost var start, before := log, Marked(done);
      ghost var w := CallDeps(file, depth, D, 0, before).value;
      added := [];
      var i := 0;
      while i < |D|
        invariant 0 <= i <= |D| && |done| == |file| && log == start + added
        invariant Rest(file, depth, D, i, Marked(done), added, w)
      {
        RestNext(file, depth, D, i, Marked(done), added, w);
        ghost var more := OneDep(D[i], strict, depth);
        assert start + added + more == start + (added + more);
        added := added + more;
        i := i + 1;
      }
      assert added + [] == added;
    }

    /** Reads the done-file, and has dep rebuilt if it is not done. */
    method OneDep(dep: nat, strict: bool, ghost depth: nat) returns (ghost more: seq<nat>)
      requires FileOk(file) && 1 <= dep <= |file| && |done| == |file|
      requires dep !in Marked(done) ==> Call(file, depth, dep, Marked(done)).Some?
      modifies `done, `log
      ensures |done| == |file| && log == old(log) + more
      ensures Did(file, depth, dep, old(Marked(done)), Marked(done), more)
      decreases depth, 1
    {
      var visited := done;
      MarkedAt(done, dep);
      if visited[dep - 1] == 0 {
        more := Recur(dep, false, strict, depth);
      } else {
        more := [];
      }
    }

    /** Marks u done and reports it. */
    method Finish(u: nat)
      requires 1 <= u <= |file| == |done|
      modifies `done, `log
      ensures |done| == |file| && log == old(log) + [u] && Marked(done) == old(Marked(done)) + {u}
    {
      var visited := done;
      MarkedUpdate(visited, u - 1);
      visited := visited[u - 1 := 1];
      done := visited;
      log := log + [u];
    }

    /** Either program started for u, as the root or by another that has u rebuilt: if nothing that u needs
        is on a cycle it ends, and has rebuilt just what u needs and was not done, each once and after all
        it depends on. */
    method Rebuild(u: nat, isRoot: bool, strict: bool) returns (ghost added: seq<nat>)
      requires FileOk(file) && 1 <= u <= |file| && Acyclic(file, u)
      requires !isRoot ==> |done| == |file| && Closed(file, Marked(done)) && u !in Marked(done)
      modifies `done, `log
      ensures |done| == |file| && Closed(file, Marked(done)) && log == old(log) + added
      ensures var before := if isRoot then {} else old(Marked(done));
        Rebuilt(file, before, added, Needs(file, u)) && Marked(done) == before + Needs(file, u)
    {
      ghost var before := if isRoot then {} else Marked(done);
      ghost var depth := |Needs(file, u)|;
      AcyclicEnds(file, depth, u, before);
      EndsRight(file, depth, u, before);
      ClosedMore(file, before, u);
      added := Recur(u, isRoot, strict, depth);
    }
  }

  /** From the i-th dependency on, what remains completes w, of which `added` is reported already. */
  predicate Rest(file: seq<Line>, depth: nat, D: seq<nat>, i: nat, done: set<nat>, added: seq<nat>, w: Work)
    requires FileOk(file) && i <= |D| && forall k | 0 <= k < |D| :: 1 <= D[k] <= |file|
  {
    var r := CallDeps(file, depth, D, i, done);
    r.Some? && r.value.done == w.done && added + r.value.log == w.log
  }

  /** What one dependency comes to. */
  predicate Did(file: seq<Line>, depth: nat, dep: nat, done: set<nat>, after: set<nat>, more: seq<nat>)
    requires FileOk(file) && 1 <= dep <= |file|
  {
    if dep in done then after == done && more == [] else Call(file, depth, dep, done) == Some(Work(after, more))
  }

  lemma RestNext(file: seq<Line>, depth: nat, D: seq<nat>, i: nat, done: set<nat>, added: seq<nat>, w: Work)
    requires FileOk(file) && i < |D| && forall k | 0 <= k < |D| :: 1 <= D[k] <= |file|
    requires Rest(file, depth, D, i, done, added, w)
    ensures D[i] !in done ==> Call(file, depth, D[i], done).Some?
    ensures forall after, more :: Did(file, depth, D[i], done, after, more) ==> Rest(file, depth, D, i + 1, after, added + more, w)
  {
    forall after, more | Did(file, depth, D[i], done, after, more)
      ensures Rest(file, depth, D, i + 1, after, added + more, w)
    {
      var rest := CallDeps(file, depth, D, i + 1, after).value.log;
      assert added + more + rest == added + (more + rest);
      assert D[i] in done ==> added + more == added;
    }
  }

  /** On a generated file either program ends, and rebuilds just what the root needs, each once and after
      all it depends on. */
  method GenerateAndRebuild(n: nat, u: nat, strict: bool)
    returns (file: seq<Line>, log: seq<nat>, ghost places: seq<nat>, ghost edges: set<(nat, nat)>)
    requires 1 <= u <= n
    ensures forall i | 0 <= i < |file| :: DepGen.ListsEdges(file[i], places, edges)
    ensures |file| == n && FileOk(file) && Rebuilt(file, {}, log, Needs(file, u))
  {
    ghost var rank;
    file, rank, places, edges := DepGen.GenDep(n);
    var ws := new Workspace(file, []);
    RankedIsAcyclic(file, rank, u);
    ghost var added := ws.Rebuild(u, true, strict);
    log := ws.log;
    assert [] + added == added;
  }
}
