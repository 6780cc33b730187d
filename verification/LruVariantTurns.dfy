/** Runs of the simulator that drops processes, turn by turn: whose turn it is and what it searches for. */
module LruVariantTurns {
  import opened SearchTrace
  import opened LruVariant
  import opened LruVariantRuns
  import opened TurnOrder
  import LS = LruSystem

  /** Whose the turns of the run are. */
  predicate TurnsOf(run: seq<VSys>, turns: seq<nat>) {
    |run| == |turns| + 1 && forall i | 0 <= i < |turns| :: run[i].ready != [] && run[i].ready[0] == turns[i]
  }

  /** A turn of p: the others keep their order, and p goes behind them if it has got through its search and
      will make another. */
  lemma TurnQueue(c: LS.Config, s: VSys, t: VSys)
    requires LS.ConfigOk(c) && Steady(c, s) && Next(c, s, t)
    ensures var p := s.ready[0];
      && p < |c.sizes| == |s.scnt| && p !in s.ready[1..] && p !in s.dropped
      && (if p in t.dropped then t.ready == s.ready[1..] && t.scnt == s.scnt
          else t.scnt == s.scnt[p := s.scnt[p] + 1] && t.ready == s.ready[1..] + if s.scnt[p] + 1 < c.searches then [p] else [])
  {
    ReadyCanSearch(c, s);
    var draws :| TurnIs(c, s, draws, t);
    assert Somewhere(c.searches, s, s.ready[0]);
    assert forall i | 0 <= i < |s.ready[1..]| :: s.ready[1..][i] == s.ready[i + 1];
  }

  lemma RunTurn(c: LS.Config, run: seq<VSys>, i: nat, next: nat)
    requires RunOf(c, run) && next == i + 1 < |run|
    ensures LS.ConfigOk(c) && Steady(c, run[i]) && Next(c, run[i], run[next])
  {
    RunSteady(c, run, i);
    assert Next(c, run[next - 1], run[next]);
  }

  lemma QueueGoesOn(c: LS.Config, run: seq<VSys>, turns: seq<nat>, t: nat, next: nat)
    requires RunOf(c, run) && TurnsOf(run, turns) && next == t + 1 < |run| && ByTurn(turns, t, run[t].ready, |c.sizes|)
    ensures ByTurn(turns, next, run[next].ready, |c.sizes|)
  {
    RunTurn(c, run, t, next);
    TurnQueue(c, run[t], run[next]);
    var rest := run[t].ready[1..];
    TailByTurn(turns, t, run[t].ready, |c.sizes|);
    StillByTurn(turns, t, next, rest, |c.sizes|);
    LastByTurn(turns, t, next, rest, |c.sizes|);
    assert rest + [] == rest;
  }

  /** The ready processes stand in the order of their last turns, before they have had any by number. */
  lemma {:induction false} QueueByTurn(c: LS.Config, run: seq<VSys>, turns: seq<nat>, t: nat)
    requires RunOf(c, run) && TurnsOf(run, turns) && t < |run|
    ensures ByTurn(turns, t, run[t].ready, |c.sizes|)
  {
    if t == 0 {
      StartBegun(c);
    } else {
      QueueByTurn(c, run, turns, t - 1);
      QueueGoesOn(c, run, turns, t - 1, t);
    }
  }

  /** So the next turn is that of the ready process whose last turn lies furthest back. */
  lemma LongestIdleNext(c: LS.Config, run: seq<VSys>, turns: seq<nat>, t: nat, o: nat)
    requires RunOf(c, run) && TurnsOf(run, turns) && t < |turns| && o in run[t].ready && o != turns[t]
    ensures LastTurn(turns, t, turns[t], |c.sizes|) < LastTurn(turns, t, o, |c.sizes|)
  {
    QueueByTurn(c, run, turns, t);
    HeadIsOldest(turns, t, run[t].ready, o, |c.sizes|);
  }

  /** How many of the first t turns were p's. */
  function TurnsHad(turns: seq<nat>, t: nat, p: nat): nat
    requires t <= |turns|
  {
    if t == 0 then 0 else TurnsHad(turns, t - 1, p) + if turns[t - 1] == p then 1 else 0
  }

  lemma SearchesGoOn(c: LS.Config, run: seq<VSys>, turns: seq<nat>, t: nat, next: nat, p: nat)
    requires RunOf(c, run) && TurnsOf(run, turns) && next == t + 1 < |run| && p < |c.sizes| && p !in run[next].dropped
    requires |run[t].scnt| == |c.sizes| && (p !in run[t].dropped ==> run[t].scnt[p] == TurnsHad(turns, t, p))
    ensures |run[next].scnt| == |c.sizes| && run[next].scnt[p] == TurnsHad(turns, next, p)
  {
    RunTurn(c, run, t, next);
    TurnQueue(c, run[t], run[next]);
    StaysDropped(c, run[t], run[next], p);
  }

  lemma StaysDropped(c: LS.Config, s: VSys, t: VSys, p: nat)
    requires LS.ConfigOk(c) && Next(c, s, t)
    ensures p in s.dropped ==> p in t.dropped
  {
    var draws :| TurnIs(c, s, draws, t);
  }

  /** As long as it is not dropped, a process has made a search in each of its turns. */
  lemma {:induction false} SearchNumber(c: LS.Config, run: seq<VSys>, turns: seq<nat>, t: nat, p: nat)
    requires RunOf(c, run) && TurnsOf(run, turns) && t < |run| && p < |c.sizes|
    ensures |run[t].scnt| == |c.sizes| && (p !in run[t].dropped ==> run[t].scnt[p] == TurnsHad(turns, t, p))
  {
    RunSteady(c, run, t);
    if t == 0 {
      StartBegun(c);
    } else {
      SearchNumber(c, run, turns, t - 1, p);
      if p !in run[t].dropped {
        SearchesGoOn(c, run, turns, t - 1, t, p);
      }
    }
  }

  /** p has searched for `key`, touching the pages for it in order: if it got through they leave its table, or
      what it gave back, and if not it is dropped. */
  ghost predicate SearchesFor(c: LS.Config, s: VSys, t: VSys, p: nat, key: int)
    requires p < |c.sizes|
  {
    var n, pages := |c.sizes|, PagesFor(c.sizes[p], key);
    exists draws: seq<nat> :: |draws| == |pages| && SearchedTo(VSearch(s.k, n, p, pages, draws), t, n, p)
  }

  predicate SearchedTo(r: Outcome, t: VSys, n: nat, p: nat) {
    && p < n == |r.k.tables| == |t.k.tables| && (r.ok <==> p !in t.dropped)
    && (t.k.tables[p].Keys == r.k.tables[p].Keys || (r.ok && t.k.tables[p] == map[])) && t.k.stats == r.k.stats
  }

  lemma TurnSearches(c: LS.Config, s: VSys, t: VSys)
    requires LS.ConfigOk(c) && Steady(c, s) && Next(c, s, t)
    ensures var p := s.ready[0];
      p < |c.sizes| == |s.scnt| && s.scnt[p] < |c.keys[p]| && SearchesFor(c, s, t, p, c.keys[p][s.scnt[p]])
  {
    ReadyCanSearch(c, s);
    var draws :| TurnIs(c, s, draws, t);
    var p, r := s.ready[0], NextSearch(c, s, draws);
    SearchShape(c, s, draws);
    assert Somewhere(c.searches, s, p);
    AllReleased(r.k, |c.sizes|, p);
    ReleaseStats(c, s, draws);
    assert SearchedTo(r, t, |c.sizes|, p);
  }

  lemma ReleaseStats(c: LS.Config, s: VSys, draws: seq<nat>)
    requires LS.ConfigOk(c) && Steady(c, s) && CanSearch(c, s) && |draws| == |NextPages(c, s)|
    ensures var p, r := s.ready[0], NextSearch(c, s, draws);
      p < |r.k.tables| && LruRuns.Release(VAge(r.k, p), p).stats == r.k.stats
  {
    SearchShape(c, s, draws);
    LS.ReleaseFromStats(VAge(NextSearch(c, s, draws).k, s.ready[0]), s.ready[0], 0);
  }

  /** In its j-th turn a process searches for its j-th key. */
  lemma KeysInOrder(c: LS.Config, run: seq<VSys>, turns: seq<nat>, t: nat, next: nat) returns (p: nat, j: nat)
    requires RunOf(c, run) && TurnsOf(run, turns) && next == t + 1 < |run|
    ensures p == turns[t] && j == TurnsHad(turns, t, p)
    ensures p < |c.sizes| == |c.keys| && j < |c.keys[p]| && SearchesFor(c, run[t], run[next], p, c.keys[p][j])
  {
    p, j := turns[t], TurnsHad(turns, t, turns[t]);
    RunTurn(c, run, t, next);
    TurnQueue(c, run[t], run[next]);
    SearchNumber(c, run, turns, t, p);
    TurnSearches(c, run[t], run[next]);
  }
}
