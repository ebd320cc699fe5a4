/** The machine player (class SimpleAI), which is textually the same in both
    generations of the engine: a pool of coordinates not yet fired at,
    drawn from at random. The opponent board is seen only through its
    `tried` view at the moment of the call, and java.util.Random through an
    explicit stream of draws. */
module PoolAI {
  import opened Base
  import opened Geometry
  import NavalBoard
  import DraftBoard

  /** `pool` is the list possibleShots, in list order. */
  datatype AI = AI(pool: seq<Pos>)

  /** new SimpleAI(board): every grid coordinate once, row by row. */
  function NewAI(): (ai: AI)
    ensures |ai.pool| == SIZE * SIZE && Distinct(ai.pool)
    ensures forall p: Pos :: p in ai.pool
  {
    var all := AllPairs();
    AllPairsExactlyOnce();
    assert forall k | 0 <= k < |all| :: all[k] in all;
    var pool: seq<Pos> := seq(|all|, k requires 0 <= k < |all| => all[k]);
    assert pool == all;
    AI(pool)
  }

  /** List.remove(idx): the list without its idx-th entry. */
  function RemoveAt(s: seq<Pos>, idx: nat): (r: seq<Pos>)
    requires idx < |s|
    ensures |r| == |s| - 1
    ensures multiset(r) + multiset{s[idx]} == multiset(s)
  {
    assert s == s[..idx] + [s[idx]] + s[idx + 1..];
    s[..idx] + s[idx + 1..]
  }

  /** Removing an entry from a list without repeats leaves a list without
      repeats that no longer holds the entry. */
  lemma RemoveAtDistinct(s: seq<Pos>, idx: nat)
    requires idx < |s| && Distinct(s)
    ensures Distinct(RemoveAt(s, idx)) && s[idx] !in RemoveAt(s, idx)
  {
    var r := RemoveAt(s, idx);
    assert forall k | 0 <= k < |r| :: r[k] == if k < idx then s[k] else s[k + 1];
  }

  /** SimpleAI.nextShot: (0,0) once the pool is empty; otherwise draw an
      index, remove that entry and return it, unless the opponent has
      already tried that cell, in which case draw again from what is left.
      Each call to nextShot consumes one draw. */
  function NextShot(ai: AI, tried: Pos -> bool, rng: Rng, pos: nat): (res: (AI, Pos, nat))
    ensures |res.0.pool| <= |ai.pool| && (ai.pool != [] ==> |res.0.pool| < |ai.pool|)
    ensures multiset(res.0.pool) <= multiset(ai.pool)
    ensures ai.pool == [] ==> res == (ai, (0, 0), pos)
    ensures pos <= res.2 <= pos + |ai.pool|
    ensures res.2 - pos == |ai.pool| - |res.0.pool|
    decreases |ai.pool|
  {
    if ai.pool == [] then (ai, (0, 0), pos)
    else
      var idx := NextInt(rng, pos, |ai.pool|);
      var shot := ai.pool[idx];
      var rest := AI(RemoveAt(ai.pool, idx));
      if tried(shot) then NextShot(rest, tried, rng, pos + 1)
      else (rest, shot, pos + 1)
  }

  /** What nextShot returns is either a coordinate it took from the pool
      that is untried on the opponent board, or the fallback (0,0) once
      every remaining entry turned out to be tried; and everything else it
      took from the pool was tried. */
  lemma {:induction false} NextShotOutcome(ai: AI, tried: Pos -> bool, rng: Rng, pos: nat)
    ensures var res := NextShot(ai, tried, rng, pos);
      || (!tried(res.1) && res.1 in multiset(ai.pool) - multiset(res.0.pool))
      || (res.1 == (0, 0) && res.0.pool == [])
    ensures var res := NextShot(ai, tried, rng, pos);
      forall q | q in multiset(ai.pool) - multiset(res.0.pool) :: tried(q) || q == res.1
    decreases |ai.pool|
  {
    if ai.pool != [] {
      var idx := NextInt(rng, pos, |ai.pool|);
      var shot := ai.pool[idx];
      var rest := AI(RemoveAt(ai.pool, idx));
      if tried(shot) {
        NextShotOutcome(rest, tried, rng, pos + 1);
      }
    }
  }

  /** Against the current engine's board, nextShot returns a cell that is
      untried there, or the fallback (0,0) with the pool used up. */
  lemma NextShotOnNavalBoard(ai: AI, b: NavalBoard.Board, rng: Rng, pos: nat)
    requires NavalBoard.Shaped(b)
    ensures var res := NextShot(ai, NavalBoard.TriedOn(b), rng, pos);
      || (!NavalBoard.At(b, res.1).IsTried() && res.1 in multiset(ai.pool))
      || (res.1 == (0, 0) && res.0.pool == [])
  {
    NextShotOutcome(ai, NavalBoard.TriedOn(b), rng, pos);
  }

  /** The same against the draft's board. */
  lemma NextShotOnDraftBoard(ai: AI, b: DraftBoard.Board, rng: Rng, pos: nat)
    requires DraftBoard.Shaped(b)
    ensures var res := NextShot(ai, DraftBoard.TriedOn(b), rng, pos);
      || (!DraftBoard.At(b, res.1).IsTried() && res.1 in multiset(ai.pool))
      || (res.1 == (0, 0) && res.0.pool == [])
  {
    NextShotOutcome(ai, DraftBoard.TriedOn(b), rng, pos);
  }

  /** SimpleAI.reportResult: the AI ignores the outcome. */
  function ReportResult(ai: AI, shot: Coord, hit: bool): (r: AI)
    ensures r == ai
  {
    ai
  }

  /** Putting a new element in front keeps a list without repeats. */
  lemma DistinctCons<T>(x: T, s: seq<T>)
    requires Distinct(s) && forall i | 0 <= i < |s| :: s[i] != x
    ensures Distinct([x] + s)
  {
    var t := [x] + s;
    assert forall i | 1 <= i < |t| :: t[i] == s[i - 1];
  }

  /** No entry of the pool repeats or has been tried. */
  ghost predicate Untouched(ai: AI, fired: set<Pos>) {
    Distinct(ai.pool) && forall k | 0 <= k < |ai.pool| :: ai.pool[k] !in fired
  }

  /** The `tried` view of an opponent board on which exactly the cells in
      `fired` have been shot at. */
  function FiredAt(fired: set<Pos>): (tried: Pos -> bool)
    ensures forall q: Pos :: tried(q) <==> q in fired
  {
    (q: Pos) => q in fired
  }

  /** The AI firing n times at an opponent that nobody else shoots at: the
      cells tried on that board are the ones in `fired` plus the AI's own
      earlier shots. Returns the AI, its shots in order and the stream
      position. */
  function Salvo(ai: AI, fired: set<Pos>, rng: Rng, pos: nat, n: nat): (res: (AI, seq<Pos>, nat))
    ensures |res.1| == n
    decreases n
  {
    if n == 0 then (ai, [], pos)
    else
      var next := NextShot(ai, FiredAt(fired), rng, pos);
      var rest := Salvo(next.0, fired + {next.1}, rng, next.2, n - 1);
      (rest.0, [next.1] + rest.1, rest.2)
  }

  /** While the pool lasts and nothing in it has been tried, every call
      takes exactly one entry: the pool shrinks by one per shot, and each
      entry of the starting pool is either still in the pool or among the
      shots. */
  lemma {:induction false} SalvoDrawsFromPool(ai: AI, fired: set<Pos>, rng: Rng, pos: nat, n: nat)
    requires n <= |ai.pool| && Untouched(ai, fired)
    ensures |Salvo(ai, fired, rng, pos, n).0.pool| == |ai.pool| - n
    ensures forall k | 0 <= k < |ai.pool| :: ai.pool[k] in Salvo(ai, fired, rng, pos, n).0.pool || ai.pool[k] in Salvo(ai, fired, rng, pos, n).1
    decreases n
  {
    if n > 0 {
      var next := FirstShotFresh(ai, fired, rng, pos);
      var shot := next.1;
      var fired' := fired + {shot};
      SalvoDrawsFromPool(next.0, fired', rng, next.2, n - 1);
      var rest := Salvo(next.0, fired', rng, next.2, n - 1);
      assert Salvo(ai, fired, rng, pos, n) == (rest.0, [shot] + rest.1, rest.2);
      forall k | 0 <= k < |ai.pool|
        ensures ai.pool[k] in rest.0.pool || ai.pool[k] in [shot] + rest.1
      {
        if ai.pool[k] != shot {
          assert ai.pool[k] in next.0.pool;
          var m :| 0 <= m < |next.0.pool| && next.0.pool[m] == ai.pool[k];
        }
      }
    }
  }

  /** Under the same conditions every shot comes from the starting pool. */
  lemma {:induction false} SalvoShotsFromPool(ai: AI, fired: set<Pos>, rng: Rng, pos: nat, n: nat)
    requires n <= |ai.pool| && Untouched(ai, fired)
    ensures forall i | 0 <= i < n :: Salvo(ai, fired, rng, pos, n).1[i] in ai.pool
    decreases n
  {
    if n > 0 {
      var next := FirstShotFresh(ai, fired, rng, pos);
      var shot := next.1;
      var fired' := fired + {shot};
      SalvoShotsFromPool(next.0, fired', rng, next.2, n - 1);
      var rest := Salvo(next.0, fired', rng, next.2, n - 1);
      assert Salvo(ai, fired, rng, pos, n).1 == [shot] + rest.1;
      TakenFrom(Salvo(ai, fired, rng, pos, n).1, rest.1, next.0.pool, ai.pool, shot);
    }
  }

  /** Shots taken from what one removal left, after the entry removed,
      were all in the list before the removal. */
  lemma TakenFrom(shots: seq<Pos>, rest: seq<Pos>, left: seq<Pos>, start: seq<Pos>, shot: Pos)
    requires shots == [shot] + rest && forall i | 0 <= i < |rest| :: rest[i] in left
    requires multiset(left) + multiset{shot} == multiset(start)
    ensures forall i | 0 <= i < |shots| :: shots[i] in start
  {
    assert shot in multiset(start);
    forall i | 0 <= i < |shots|
      ensures shots[i] in start
    {
      if i > 0 {
        assert rest[i - 1] in multiset(left) && rest[i - 1] in multiset(start);
      }
    }
  }

  /** Under the same conditions no shot was tried before the salvo. */
  lemma {:induction false} SalvoFresh(ai: AI, fired: set<Pos>, rng: Rng, pos: nat, n: nat)
    requires n <= |ai.pool| && Untouched(ai, fired)
    ensures forall i | 0 <= i < n :: Salvo(ai, fired, rng, pos, n).1[i] !in fired
    decreases n
  {
    if n > 0 {
      var next := FirstShotFresh(ai, fired, rng, pos);
      var shot := next.1;
      var fired' := fired + {shot};
      SalvoFresh(next.0, fired', rng, next.2, n - 1);
      var rest := Salvo(next.0, fired', rng, next.2, n - 1);
      assert forall i | 0 <= i < n - 1 :: rest.1[i] !in fired';
      assert Salvo(ai, fired, rng, pos, n).1 == [shot] + rest.1;
    }
  }

  /** Under the same conditions no cell is fired at twice. */
  lemma {:induction false} SalvoDistinct(ai: AI, fired: set<Pos>, rng: Rng, pos: nat, n: nat)
    requires n <= |ai.pool| && Untouched(ai, fired)
    ensures Distinct(Salvo(ai, fired, rng, pos, n).1)
    decreases n
  {
    if n > 0 {
      var next := FirstShotFresh(ai, fired, rng, pos);
      var shot := next.1;
      var fired' := fired + {shot};
      SalvoDistinct(next.0, fired', rng, next.2, n - 1);
      SalvoFresh(next.0, fired', rng, next.2, n - 1);
      var rest := Salvo(next.0, fired', rng, next.2, n - 1);
      assert Salvo(ai, fired, rng, pos, n).1 == [shot] + rest.1;
      assert forall i | 0 <= i < |rest.1| :: rest.1[i] !in fired';
      assert Distinct(rest.1);
      DistinctCons(shot, rest.1);
    }
  }

  /** When nothing in a non-empty pool has been tried, nextShot takes
      exactly one entry, and what is left again has no repeats and nothing
      tried, counting the shot just taken. */
  lemma FirstShotFresh(ai: AI, fired: set<Pos>, rng: Rng, pos: nat) returns (next: (AI, Pos, nat))
    requires ai.pool != [] && Untouched(ai, fired)
    ensures next == NextShot(ai, FiredAt(fired), rng, pos)
    ensures next.2 == pos + 1 && next.1 !in fired
    ensures multiset(next.0.pool) + multiset{next.1} == multiset(ai.pool)
    ensures forall k | 0 <= k < |ai.pool| :: ai.pool[k] in next.0.pool || ai.pool[k] == next.1
    ensures |next.0.pool| == |ai.pool| - 1 && Untouched(next.0, fired + {next.1})
  {
    var tried := FiredAt(fired);
    var idx := NextInt(rng, pos, |ai.pool|);
    var shot := ai.pool[idx];
    next := NextShot(ai, tried, rng, pos);
    assert !tried(shot);
    assert next == (AI(RemoveAt(ai.pool, idx)), shot, pos + 1);
    RemoveAtDistinct(ai.pool, idx);
    forall k | 0 <= k < |next.0.pool|
      ensures next.0.pool[k] !in fired + {shot}
    {
      assert next.0.pool[k] in multiset(ai.pool);
    }
    forall k | 0 <= k < |ai.pool| && ai.pool[k] != shot
      ensures ai.pool[k] in next.0.pool
    {
      assert ai.pool[k] in multiset(ai.pool);
    }
  }

  /** As many shots as the pool holds, at a board on which none of the
      pool was tried, fire at every pool entry exactly once and empty the
      pool. */
  lemma SalvoExhaustsPool(ai: AI, fired: set<Pos>, rng: Rng, pos: nat)
    requires Distinct(ai.pool)
    requires forall k | 0 <= k < |ai.pool| :: ai.pool[k] !in fired
    ensures var res := Salvo(ai, fired, rng, pos, |ai.pool|);
      && Distinct(res.1) && res.0.pool == []
      && forall k | 0 <= k < |ai.pool| :: ai.pool[k] in res.1
  {
    var res := Salvo(ai, fired, rng, pos, |ai.pool|);
    SalvoDrawsFromPool(ai, fired, rng, pos, |ai.pool|);
    SalvoDistinct(ai, fired, rng, pos, |ai.pool|);
  }

  /** From a new AI, a hundred shots at an untouched board fire at every
      cell of the grid exactly once. */
  lemma NewAIFiresEverywhere(rng: Rng, pos: nat)
    ensures var res := Salvo(NewAI(), {}, rng, pos, SIZE * SIZE);
      Distinct(res.1) && forall p: Pos :: p in res.1
  {
    var ai := NewAI();
    SalvoExhaustsPool(ai, {}, rng, pos);
    var res := Salvo(ai, {}, rng, pos, |ai.pool|);
    forall p: Pos
      ensures p in res.1
    {
      assert p in ai.pool;
      var k :| 0 <= k < |ai.pool| && ai.pool[k] == p;
    }
  }
}
