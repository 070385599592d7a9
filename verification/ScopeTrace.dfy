/** Breadth-first search for the nearest dependency that makes a provider request-scoped. */
module ScopeTrace {
  import opened Common

  datatype Wrapper = Wrapper(id: nat)

  /** Who depends on whom, which providers declare request scope, and which have a static tree. */
  datatype Graph = Graph(dependencies: map<Wrapper, seq<Wrapper>>, request: set<Wrapper>, fixed: set<Wrapper>)

  /** Every dependency is itself a provider. */
  predicate Closed(g: Graph) {
    forall w, i :: w in g.dependencies && 0 <= i < |g.dependencies[w]| ==> g.dependencies[w][i] in g.dependencies
  }

  predicate Edge(g: Graph, a: Wrapper, b: Wrapper) {
    a in g.dependencies && b in g.dependencies[a]
  }

  /** A dependency chain from `start`. */
  predicate IsPath(g: Graph, start: Wrapper, p: seq<Wrapper>) {
    |p| >= 1 && p[0] == start && forall i :: 0 <= i < |p| - 1 ==> Edge(g, p[i], p[i + 1])
  }

  /** One that goes only through providers whose tree is not static. */
  predicate IsWalk(g: Graph, start: Wrapper, p: seq<Wrapper>) {
    IsPath(g, start, p) && forall i :: 1 <= i < |p| ==> p[i] !in g.fixed
  }

  function Last(p: seq<Wrapper>): Wrapper
    requires p != []
  {
    p[|p| - 1]
  }

  predicate EndsInCause(g: Graph, start: Wrapper, p: seq<Wrapper>)
    requires p != []
  {
    Last(p) != start && Last(p) in g.request
  }

  /** A chain that explains the inherited scope. */
  predicate IsCause(g: Graph, start: Wrapper, p: seq<Wrapper>) {
    IsWalk(g, start, p) && EndsInCause(g, start, p)
  }

  // ---------------------------------------------------------------- what the search keeps

  /** A walk no longer than any other to where it ends. */
  ghost predicate Shortest(g: Graph, start: Wrapper, p: seq<Wrapper>) {
    IsWalk(g, start, p) && forall q :: IsWalk(g, start, q) && Last(q) == Last(p) ==> |p| <= |q|
  }

  /** Finished with: not a cause, and everything it could lead to has been seen. */
  ghost predicate Finished(g: Graph, start: Wrapper, w: Wrapper, visited: set<Wrapper>) {
    && (w == start || w !in g.request)
    && forall x :: Edge(g, w, x) && x !in g.fixed ==> x in visited
  }

  ghost predicate AllFinished(g: Graph, start: Wrapper, done: set<Wrapper>, visited: set<Wrapper>) {
    forall w :: w in done ==> Finished(g, start, w, visited)
  }

  /** Walks of fewer than `n` providers end somewhere finished with. */
  ghost predicate Level(g: Graph, start: Wrapper, done: set<Wrapper>, n: nat) {
    forall q :: IsWalk(g, start, q) && |q| < n ==> Last(q) in done
  }

  predicate HasTail(queue: seq<seq<Wrapper>>, w: Wrapper) {
    exists i :: 0 <= i < |queue| && queue[i] != [] && Last(queue[i]) == w
  }

  /** Lengths in the queue never fall, and differ by one at most. */
  predicate InStep(queue: seq<seq<Wrapper>>, n: nat) {
    && (forall i :: 0 <= i < |queue| ==> n <= |queue[i]| <= n + 1)
    && (forall i, j :: 0 <= i < j < |queue| ==> |queue[i]| <= |queue[j]|)
  }

  ghost predicate QueueOk(g: Graph, start: Wrapper, queue: seq<seq<Wrapper>>) {
    forall i :: 0 <= i < |queue| ==> queue[i] != [] && Shortest(g, start, queue[i])
  }

  /** Every provider seen is finished with, waiting in the queue, or the one being looked at. */
  predicate Seen(visited: set<Wrapper>, done: set<Wrapper>, queue: seq<seq<Wrapper>>) {
    && done <= visited
    && (forall w :: w in visited ==> w in done || HasTail(queue, w))
    && (forall i :: 0 <= i < |queue| && queue[i] != [] ==> Last(queue[i]) in visited)
  }

  lemma Extended(g: Graph, start: Wrapper, p: seq<Wrapper>, d: Wrapper)
    requires IsWalk(g, start, p) && Edge(g, Last(p), d) && d !in g.fixed
    ensures IsWalk(g, start, p + [d]) && Last(p + [d]) == d
  {
    var q := p + [d];
    forall i | 0 <= i < |q| - 1
      ensures Edge(g, q[i], q[i + 1])
    {
      if i < |p| - 1 {
        assert Edge(g, p[i], p[i + 1]);
      }
    }
  }

  lemma Shortened(g: Graph, start: Wrapper, q: seq<Wrapper>)
    requires IsWalk(g, start, q) && |q| > 1
    ensures IsWalk(g, start, q[..|q| - 1]) && Edge(g, q[|q| - 2], Last(q)) && Last(q) !in g.fixed
  {
    var p := q[..|q| - 1];
    assert forall i :: 0 <= i < |p| ==> p[i] == q[i];
    assert forall i :: 0 <= i < |p| - 1 ==> Edge(g, q[i], q[i + 1]);
    assert Edge(g, q[|q| - 2], q[|q| - 2 + 1]);
  }

  /** When shorter walks end in finished providers, walks of `n` end in seen ones. */
  lemma SeenUpTo(g: Graph, start: Wrapper, done: set<Wrapper>, visited: set<Wrapper>, n: nat, q: seq<Wrapper>)
    requires Level(g, start, done, n) && AllFinished(g, start, done, visited) && start in visited && done <= visited
    requires IsWalk(g, start, q) && |q| <= n
    ensures Last(q) in visited
  {
    if |q| > 1 {
      Shortened(g, start, q);
      var p := q[..|q| - 1];
      assert Last(p) == q[|q| - 2] && Last(p) in done;
      assert Finished(g, start, Last(p), visited);
    }
  }

  /** A provider not seen before is reached by the extended path, and by none shorter. */
  lemma FirstReached(g: Graph, start: Wrapper, done: set<Wrapper>, visited: set<Wrapper>, path: seq<Wrapper>, d: Wrapper)
    requires IsWalk(g, start, path) && Edge(g, Last(path), d) && d !in g.fixed && d !in visited
    requires Level(g, start, done, |path|) && AllFinished(g, start, done, visited) && start in visited && done <= visited
    ensures Shortest(g, start, path + [d])
  {
    Extended(g, start, path, d);
    forall q | IsWalk(g, start, q) && Last(q) == d
      ensures |path + [d]| <= |q|
    {
      if |q| <= |path| {
        SeenUpTo(g, start, done, visited, |path|, q);
      }
    }
  }

  lemma NotWaiting(g: Graph, start: Wrapper, queue: seq<seq<Wrapper>>, q: seq<Wrapper>, n: nat)
    requires QueueOk(g, start, queue) && forall i :: 0 <= i < |queue| ==> |queue[i]| == n + 1
    requires IsWalk(g, start, q) && |q| <= n
    ensures !HasTail(queue, Last(q))
  {
  }

  /** Once the last path of a length is done, every walk of that length ends somewhere finished with. */
  lemma NextLevel(g: Graph, start: Wrapper, done: set<Wrapper>, visited: set<Wrapper>, queue: seq<seq<Wrapper>>, n: nat)
    requires Level(g, start, done, n) && AllFinished(g, start, done, visited) && start in visited
    requires Seen(visited, done, queue) && QueueOk(g, start, queue)
    requires forall i :: 0 <= i < |queue| ==> |queue[i]| == n + 1
    ensures Level(g, start, done, n + 1)
  {
    forall q | IsWalk(g, start, q) && |q| < n + 1
      ensures Last(q) in done
    {
      SeenUpTo(g, start, done, visited, n, q);
      NotWaiting(g, start, queue, q, n);
    }
  }

  /** With nothing left to look at, no walk ends in a cause. */
  lemma {:induction false} Exhausted(g: Graph, start: Wrapper, done: set<Wrapper>, q: seq<Wrapper>)
    requires AllFinished(g, start, done, done) && start in done && IsWalk(g, start, q)
    ensures Last(q) in done && !IsCause(g, start, q)
  {
    if |q| > 1 {
      Shortened(g, start, q);
      Exhausted(g, start, done, q[..|q| - 1]);
      assert Finished(g, start, q[|q| - 2], done);
    }
    assert Finished(g, start, Last(q), done);
  }

  // ---------------------------------------------------------------- the search

  /** What holds each time round: `done` is finished with, the rest of what was seen is queued. */
  ghost predicate Searching(g: Graph, start: Wrapper, done: set<Wrapper>, visited: set<Wrapper>, queue: seq<seq<Wrapper>>) {
    && start in visited && visited <= g.dependencies.Keys
    && AllFinished(g, start, done, visited) && Seen(visited, done, queue) && QueueOk(g, start, queue)
    && (queue != [] ==> InStep(queue, |queue[0]|) && Level(g, start, done, |queue[0]|))
  }

  /** The same while the dependencies of `path` are being added behind the rest of the queue. */
  ghost predicate Looking(g: Graph, start: Wrapper, done: set<Wrapper>, visited: set<Wrapper>, path: seq<Wrapper>, rest: seq<seq<Wrapper>>) {
    && start in visited && visited <= g.dependencies.Keys
    && AllFinished(g, start, done, visited) && Seen(visited, done, [path] + rest) && QueueOk(g, start, [path] + rest)
    && InStep([path] + rest, |path|) && Level(g, start, done, |path|)
  }

  lemma SeenMore(visited: set<Wrapper>, done: set<Wrapper>, queue: seq<seq<Wrapper>>, p: seq<Wrapper>)
    requires Seen(visited, done, queue) && p != []
    ensures Seen(visited + {Last(p)}, done, queue + [p])
  {
    var now := queue + [p];
    assert now[|queue|] == p;
    forall w | w in visited + {Last(p)}
      ensures w in done || HasTail(now, w)
    {
      if w in visited && w !in done {
        var i :| 0 <= i < |queue| && queue[i] != [] && Last(queue[i]) == w;
        assert now[i] == queue[i];
      }
    }
  }

  lemma QueueMore(g: Graph, start: Wrapper, queue: seq<seq<Wrapper>>, n: nat, p: seq<Wrapper>)
    requires QueueOk(g, start, queue) && InStep(queue, n) && Shortest(g, start, p) && |p| == n + 1
    ensures QueueOk(g, start, queue + [p]) && InStep(queue + [p], n)
  {
  }

  lemma FinishedStill(g: Graph, start: Wrapper, done: set<Wrapper>, visited: set<Wrapper>, d: Wrapper)
    requires AllFinished(g, start, done, visited)
    ensures AllFinished(g, start, done, visited + {d})
  {
    forall w | w in done
      ensures Finished(g, start, w, visited + {d})
    {
      assert Finished(g, start, w, visited);
    }
  }

  lemma Added(g: Graph, start: Wrapper, done: set<Wrapper>, visited: set<Wrapper>, path: seq<Wrapper>, rest: seq<seq<Wrapper>>, d: Wrapper)
    requires Closed(g) && Looking(g, start, done, visited, path, rest)
    requires path != [] && Edge(g, Last(path), d) && d !in g.fixed && d !in visited
    ensures Looking(g, start, done, visited + {d}, path, rest + [path + [d]])
  {
    var queue := [path] + rest;
    assert queue[0] == path;
    FirstReached(g, start, done, visited, path, d);
    SeenMore(visited, done, queue, path + [d]);
    QueueMore(g, start, queue, |path|, path + [d]);
    FinishedStill(g, start, done, visited, d);
    Associates([path], rest, [path + [d]]);
  }

  lemma SeenFirst(visited: set<Wrapper>, done: set<Wrapper>, path: seq<Wrapper>, rest: seq<seq<Wrapper>>)
    requires Seen(visited, done, [path] + rest) && path != []
    ensures Seen(visited, done + {Last(path)}, rest)
  {
    var queue := [path] + rest;
    assert queue[0] == path;
    forall w | w in visited
      ensures w in done + {Last(path)} || HasTail(rest, w)
    {
      if w !in done && w != Last(path) {
        var i :| 0 <= i < |queue| && queue[i] != [] && Last(queue[i]) == w;
        assert queue[i] == rest[i - 1];
      }
    }
    forall i | 0 <= i < |rest| && rest[i] != []
      ensures Last(rest[i]) in visited
    {
      assert queue[i + 1] == rest[i];
    }
  }

  lemma QueueFirst(g: Graph, start: Wrapper, path: seq<Wrapper>, rest: seq<seq<Wrapper>>, n: nat)
    requires QueueOk(g, start, [path] + rest) && InStep([path] + rest, n)
    ensures QueueOk(g, start, rest) && InStep(rest, n)
    ensures rest != [] ==> InStep(rest, |rest[0]|) && (|rest[0]| == n || forall i :: 0 <= i < |rest| ==> |rest[i]| == n + 1)
  {
    var queue := [path] + rest;
    assert forall i :: 0 <= i < |rest| ==> queue[i + 1] == rest[i];
    if rest != [] {
      forall i | 0 <= i < |rest|
        ensures |rest[0]| <= |rest[i]| <= n + 1
      {
        assert |queue[1]| <= |queue[i + 1]|;
      }
    }
  }

  lemma LevelStill(g: Graph, start: Wrapper, done: set<Wrapper>, w: Wrapper, n: nat)
    requires Level(g, start, done, n)
    ensures Level(g, start, done + {w}, n)
  {
  }

  lemma Looked(g: Graph, start: Wrapper, done: set<Wrapper>, visited: set<Wrapper>, path: seq<Wrapper>, rest: seq<seq<Wrapper>>)
    requires Looking(g, start, done, visited, path, rest) && path != []
    requires Finished(g, start, Last(path), visited)
    ensures Searching(g, start, done + {Last(path)}, visited, rest)
  {
    var now := done + {Last(path)};
    assert Last(([path] + rest)[0]) in visited;
    SeenFirst(visited, done, path, rest);
    QueueFirst(g, start, path, rest, |path|);
    LevelStill(g, start, done, Last(path), |path|);
    if rest != [] && |rest[0]| != |path| {
      NextLevel(g, start, now, visited, rest, |path|);
    }
  }

  /** Queues each dependency of the path's end not seen before, behind the rest. */
  method Enqueue(g: Graph, start: Wrapper, ghost done: set<Wrapper>, visited: set<Wrapper>, path: seq<Wrapper>, rest: seq<seq<Wrapper>>)
    returns (seen: set<Wrapper>, queue: seq<seq<Wrapper>>)
    requires Closed(g) && path != [] && Last(path) in g.dependencies && Looking(g, start, done, visited, path, rest)
    ensures Looking(g, start, done, seen, path, queue)
    ensures visited <= seen && (seen == visited ==> queue == rest)
    ensures forall x :: Edge(g, Last(path), x) && x !in g.fixed ==> x in seen
  {
    seen, queue := visited, rest;
    var dependencies := g.dependencies[path[|path| - 1]];
    for i := 0 to |dependencies|
      invariant Looking(g, start, done, seen, path, queue)
      invariant forall j :: 0 <= j < i ==> dependencies[j] in g.fixed || dependencies[j] in seen
      invariant visited <= seen && (seen == visited ==> queue == rest)
    {
      var d := dependencies[i];
      if d !in seen && d !in g.fixed {
        Added(g, start, done, seen, path, queue, d);
        seen := seen + {d};
        queue := queue + [path + [d]];
      }
    }
  }

  /**
   * The shortest chain through providers that are not static, or the empty list exactly when there
   * is none. Terminates on cyclic graphs: each provider is queued at most once.
   */
  method TraceToRequestScope(g: Graph, start: Wrapper) returns (r: seq<Wrapper>)
    requires Closed(g) && start in g.dependencies
    ensures r != [] ==> IsCause(g, start, r) && forall q :: IsCause(g, start, q) ==> |r| <= |q|
    ensures r == [] <==> !exists q :: IsCause(g, start, q)
  {
    var visited := {start};
    var queue := [[start]];
    ghost var done: set<Wrapper> := {};
    StartsOk(g, start);
    while queue != []
      invariant Searching(g, start, done, visited, queue)
      decreases g.dependencies.Keys - visited, |queue|
    {
      var path, rest := queue[0], queue[1..];
      assert queue == [path] + rest;
      assert path != [] && Last(path) in visited;
      if |path| > 1 && path[|path| - 1] in g.request {
        FoundIsShortest(g, start, done, visited, path, rest);
        return path;
      }
      NotACause(g, start, path);
      ghost var was := visited;
      visited, queue := Enqueue(g, start, done, visited, path, rest);
      Looked(g, start, done, visited, path, queue);
      done := done + {Last(path)};
      Shrinks(g.dependencies.Keys, was, visited);
    }
    NothingFound(g, start, done, visited);
    return [];
  }

  lemma Shrinks(all: set<Wrapper>, was: set<Wrapper>, now: set<Wrapper>)
    requires was <= now <= all
    ensures now == was || all - now < all - was
  {
    if now != was {
      var x :| x in now && x !in was;
      assert x in all - was && x !in all - now;
    }
  }

  lemma NothingFound(g: Graph, start: Wrapper, done: set<Wrapper>, visited: set<Wrapper>)
    requires Searching(g, start, done, visited, [])
    ensures !exists q :: IsCause(g, start, q)
  {
    assert visited == done;
    forall q
      ensures !IsCause(g, start, q)
    {
      if IsWalk(g, start, q) {
        Exhausted(g, start, done, q);
      }
    }
  }

  lemma StartsOk(g: Graph, start: Wrapper)
    requires start in g.dependencies
    ensures Searching(g, start, {}, {start}, [[start]])
  {
    assert Last([[start]][0]) == start;
    assert IsWalk(g, start, [start]);
  }

  /** A path of one provider is the start itself, which is not its own cause. */
  lemma NotACause(g: Graph, start: Wrapper, path: seq<Wrapper>)
    requires IsWalk(g, start, path) && !(|path| > 1 && Last(path) in g.request)
    ensures Last(path) == start || Last(path) !in g.request
  {
  }

  lemma FoundIsShortest(g: Graph, start: Wrapper, done: set<Wrapper>, visited: set<Wrapper>, path: seq<Wrapper>, rest: seq<seq<Wrapper>>)
    requires Searching(g, start, done, visited, [path] + rest) && |path| > 1 && Last(path) in g.request
    ensures IsCause(g, start, path) && forall q :: IsCause(g, start, q) ==> |path| <= |q|
  {
    var queue := [path] + rest;
    assert queue[0] == path;
    assert Shortest(g, start, path);
    assert IsWalk(g, start, [start]) && Last([start]) == start;
    forall q | IsCause(g, start, q)
      ensures |path| <= |q|
    {
      assert Last(q) in done ==> Finished(g, start, Last(q), visited);
    }
  }

  // ---------------------------------------------------------------- pruning loses nothing

  /** A static tree reaches no request-scoped provider. */
  ghost predicate StaticIsSafe(g: Graph) {
    forall s, p :: s in g.fixed && IsPath(g, s, p) ==> Last(p) !in g.request
  }

  /** Then every chain at all to a request-scoped provider is one the search considers. */
  lemma PruningLosesNothing(g: Graph, start: Wrapper, p: seq<Wrapper>)
    requires StaticIsSafe(g) && IsPath(g, start, p) && EndsInCause(g, start, p)
    ensures IsCause(g, start, p)
  {
    forall i | 1 <= i < |p|
      ensures p[i] !in g.fixed
    {
      var q := p[i..];
      forall j | 0 <= j < |q| - 1
        ensures Edge(g, q[j], q[j + 1])
      {
        assert Edge(g, p[i + j], p[i + j + 1]);
      }
      assert IsPath(g, p[i], q) && Last(q) == Last(p);
    }
  }
}
