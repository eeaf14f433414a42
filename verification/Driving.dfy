/**
 * Who drains the mining pool (`add_mining_task` and `drive_mining_pool` in blockchain/src/app.rs).
 *
 * Whoever queues a ballot then tries the mining lock; if another handler holds it the ballot is left
 * to that one. The holder stops looking when it finds the pool empty, and lets go of the lock a little
 * later.
 */
module Driving {
  import opened Blocks

  datatype Driver = NoOne | Looking | Mining(task: MiningTask) | Leaving

  /** `trying` counts handlers that have queued a ballot and not yet tried the lock. */
  datatype State = State(pool: seq<MiningTask>, driver: Driver, trying: nat)

  const START: State := State([], NoOne, 0)

  datatype Action =
    | Queue(task: MiningTask)
    | Try
    | Look
    | Finish(again: bool)
    | Leave

  predicate Can(s: State, a: Action) {
    match a
    case Queue(_) => true
    case Try => s.trying > 0
    case Look => s.driver.Looking?
    case Finish(_) => s.driver.Mining?
    case Leave => s.driver.Leaving?
  }

  /** A try takes the lock if nobody holds it, and otherwise gives up. */
  function Do(s: State, a: Action): State
    requires Can(s, a)
  {
    match a
    case Queue(task) => s.(pool := s.pool + [task], trying := s.trying + 1)
    case Try =>
      if s.driver.NoOne? then s.(driver := Looking, trying := s.trying - 1)
      else s.(trying := s.trying - 1)
    case Look =>
      if s.pool == [] then s.(driver := Leaving)
      else s.(pool := s.pool[..|s.pool| - 1], driver := Mining(s.pool[|s.pool| - 1]))
    case Finish(again) => s.(pool := if again then s.pool + [s.driver.task] else s.pool, driver := Looking)
    case Leave => s.(driver := NoOne)
  }

  /** The tasks in the pool and the one being mined. */
  function Tasks(s: State): multiset<MiningTask> {
    multiset(s.pool) + if s.driver.Mining? then multiset{s.driver.task} else multiset{}
  }

  /** Tasks enter by being queued and leave by being mined for good; the newest is taken first. */
  lemma TasksKept(s: State, a: Action)
    requires Can(s, a)
    ensures Tasks(Do(s, a)) == match a
                               case Queue(task) => Tasks(s) + multiset{task}
                               case Finish(again) => if again then Tasks(s) else multiset(s.pool)
                               case _ => Tasks(s)
    ensures a.Look? && s.pool != [] ==> Do(s, a).driver == Mining(s.pool[|s.pool| - 1])
  {
    if a.Look? && s.pool != [] {
      LookKeeps(s);
    }
  }

  lemma LookKeeps(s: State)
    requires s.driver.Looking? && s.pool != []
    ensures Tasks(Do(s, Look)) == Tasks(s)
  {
    var k := |s.pool| - 1;
    assert s.pool == s.pool[..k] + [s.pool[k]];
  }

  predicate Legal(s: State, run: seq<Action>)
    decreases |run|
  {
    run != [] ==> Can(s, run[0]) && Legal(Do(s, run[0]), run[1..])
  }

  function After(s: State, run: seq<Action>): State
    requires Legal(s, run)
    decreases |run|
  {
    if run == [] then s else After(Do(s, run[0]), run[1..])
  }

  /** A ballot is queued, nobody drains the pool, and nobody is about to. */
  predicate Stranded(s: State) {
    s.pool != [] && s.driver.NoOne? && s.trying == 0
  }

  // ---- What the run shows ----

  predicate NoLookAfter(run: seq<Action>, i: nat) {
    forall j :: i < j < |run| ==> !run[j].Look?
  }

  /** A ballot was queued and nobody has looked at the pool since. */
  predicate QueuedUnseen(run: seq<Action>, i: nat) {
    i < |run| && run[i].Queue? && NoLookAfter(run, i)
  }

  /** The try at j found the lock held. */
  predicate TriedInVain(run: seq<Action>, j: nat)
    requires Legal(START, run)
  {
    j < |run| && run[j].Try? && Legal(START, run[..j]) && !After(START, run[..j]).driver.NoOne?
  }

  /** Nobody has looked at the pool since a ballot was queued, and a try made after that failed. */
  ghost predicate Missed(run: seq<Action>)
    requires Legal(START, run)
  {
    exists i: nat, j: nat :: i < j && QueuedUnseen(run, i) && TriedInVain(run, j)
  }

  predicate Resting(s: State) {
    s.driver.Leaving? || s.driver.NoOne?
  }

  /** While nobody looks, the pool holds what was queued unseen; with nobody left to try, some try failed. */
  ghost predicate PoolShows(run: seq<Action>, s: State)
    requires Legal(START, run)
  {
    Resting(s) ==>
      && (s.pool != [] <==> exists i: nat :: QueuedUnseen(run, i))
      && (s.pool != [] && s.trying == 0 ==> Missed(run))
  }

  lemma {:induction false} Front(s: State, run: seq<Action>)
    requires Legal(s, run) && run != []
    ensures var n := |run| - 1;
            && Legal(s, run[..n]) && Can(After(s, run[..n]), run[n])
            && After(s, run) == Do(After(s, run[..n]), run[n])
    decreases |run|
  {
    hide Can, Do;
    var n := |run| - 1;
    if n > 0 {
      Front(Do(s, run[0]), run[1..]);
      assert run[1..][..n - 1] == run[..n][1..];
    }
  }

  lemma UnseenStays(front: seq<Action>, a: Action, i: nat)
    ensures i < |front| ==> (QueuedUnseen(front + [a], i) <==> QueuedUnseen(front, i) && !a.Look?)
    ensures QueuedUnseen(front + [a], |front|) <==> a.Queue?
  {
    var run := front + [a];
    assert run[|front|] == a && forall k :: 0 <= k < |front| ==> run[k] == front[k];
    if i < |front| && QueuedUnseen(front, i) && !a.Look? {
      assert NoLookAfter(run, i);
    }
    if i < |front| && QueuedUnseen(run, i) {
      forall j | i < j < |front| ensures !front[j].Look? {
        assert !run[j].Look?;
      }
    }
  }

  lemma MissStays(front: seq<Action>, a: Action)
    requires Legal(START, front + [a]) && Legal(START, front) && Missed(front) && !a.Look?
    ensures Missed(front + [a])
  {
    hide Legal, After, NoLookAfter;
    var i: nat, j: nat :| i < j && QueuedUnseen(front, i) && TriedInVain(front, j);
    UnseenStays(front, a, i);
    assert (front + [a])[..j] == front[..j];
    assert TriedInVain(front + [a], j);
  }

  /** A try that fails after a ballot was queued unseen is a miss. */
  lemma FailedTry(front: seq<Action>, i: nat)
    requires Legal(START, front + [Try]) && Legal(START, front)
    requires QueuedUnseen(front, i) && !After(START, front).driver.NoOne?
    ensures Missed(front + [Try])
  {
    hide Legal, After, NoLookAfter;
    UnseenStays(front, Try, i);
    assert (front + [Try])[..|front|] == front;
    assert TriedInVain(front + [Try], |front|);
  }

  lemma {:induction false} RunShows(run: seq<Action>)
    requires Legal(START, run)
    ensures PoolShows(run, After(START, run))
    decreases |run|
  {
    hide Legal, After, Missed, QueuedUnseen;
    if run == [] {
      NoSteps(START);
      assert forall i: nat :: !QueuedUnseen(run, i) by {
        EmptyShows();
      }
    } else {
      var n := |run| - 1;
      var front, a := run[..n], run[n];
      Front(START, run);
      RunShows(front);
      assert run == front + [a];
      OneShows(front, a);
    }
  }

  lemma EmptyShows()
    ensures forall i: nat :: !QueuedUnseen([], i)
  {
  }

  lemma OneShows(front: seq<Action>, a: Action)
    requires Legal(START, front) && Legal(START, front + [a]) && PoolShows(front, After(START, front))
    requires Can(After(START, front), a) && After(START, front + [a]) == Do(After(START, front), a)
    ensures PoolShows(front + [a], After(START, front + [a]))
  {
    hide Legal, After, Missed, QueuedUnseen;
    var s, run := After(START, front), front + [a];
    var s' := Do(s, a);
    forall i: nat ensures QueuedUnseen(run, i) <==> (i == |front| && a.Queue?) || (i < |front| && QueuedUnseen(front, i) && !a.Look?) {
      UnseenStays(front, a, i);
      UnseenBounds(run, i);
    }
    forall i: nat ensures QueuedUnseen(front, i) ==> i < |front| {
      UnseenBounds(front, i);
    }
    if Resting(s') {
      if Resting(s) && s.pool != [] && s.trying == 0 && !a.Look? {
        MissStays(front, a);
      }
      if a.Try? && s.pool != [] {
        var i: nat :| QueuedUnseen(front, i);
        FailedTry(front, i);
      }
      if a.Queue? {
        assert QueuedUnseen(run, |front|);
      }
    }
  }

  lemma UnseenBounds(run: seq<Action>, i: nat)
    ensures QueuedUnseen(run, i) ==> i < |run|
  {
  }

  /**
   * When a queued ballot is left behind, exactly: nobody holds the lock or is about to try it, a ballot
   * was queued after the last look at the pool, and a try made after that found the lock held.
   */
  lemma StrandedAfterMiss(run: seq<Action>)
    requires Legal(START, run)
    ensures var s := After(START, run);
            Stranded(s) <==> s.driver.NoOne? && s.trying == 0 && Missed(run)
  {
    hide Legal, After, QueuedUnseen;
    RunShows(run);
  }

  // ---- The next ballot ----

  /** Whoever drains the pool stops only after finding it empty. */
  lemma {:induction false} StopsAtEmpty(s: State, more: seq<Action>) returns (k: nat)
    requires !Resting(s) && Legal(s, more) && Resting(After(s, more))
    ensures k <= |more| && Legal(s, more[..k]) && After(s, more[..k]).pool == [] && After(s, more[..k]).driver.Looking?
    decreases |more|
  {
    if more[0].Look? && s.pool == [] {
      k := 0;
    } else {
      k := StopsAtEmpty(Do(s, more[0]), more[1..]);
      assert more[..k + 1][1..] == more[1..][..k];
      k := k + 1;
    }
  }

  /** Draining with no retries and no new ballots. */
  function Drained(n: nat): seq<Action> {
    if n == 0 then [Look] else [Look, Finish(false)] + Drained(n - 1)
  }

  lemma Cons(s: State, a: Action, rest: seq<Action>)
    requires Can(s, a) && Legal(Do(s, a), rest)
    ensures Legal(s, [a] + rest) && After(s, [a] + rest) == After(Do(s, a), rest)
  {
    hide Can, Do;
    assert ([a] + rest)[1..] == rest;
  }

  lemma {:induction false} DrainsAll(s: State, n: nat)
    requires s.driver.Looking? && |s.pool| == n
    ensures Legal(s, Drained(n)) && After(s, Drained(n)) == s.(pool := [], driver := Leaving)
    decreases n
  {
    hide Legal, After;
    if n == 0 {
      assert Legal(Do(s, Look), []) && After(Do(s, Look), []) == Do(s, Look) by {
        NoSteps(Do(s, Look));
      }
      Cons(s, Look, []);
      assert [Look] + [] == [Look];
    } else {
      var s1 := Do(s, Look);
      DrainsAll(Do(s1, Finish(false)), n - 1);
      Cons(s1, Finish(false), Drained(n - 1));
      Cons(s, Look, [Finish(false)] + Drained(n - 1));
      assert [Look] + ([Finish(false)] + Drained(n - 1)) == Drained(n);
    }
  }

  lemma NoSteps(s: State)
    ensures Legal(s, []) && After(s, []) == s
  {
  }

  /**
   * The next ballot to arrive picks up what was left behind: its handler takes the lock, and whatever
   * follows, nobody stops draining before the pool has been empty. Undisturbed it does empty.
   */
  lemma NextBallotRescues(s: State, task: MiningTask)
    requires Stranded(s)
    ensures Can(s, Queue(task)) && Can(Do(s, Queue(task)), Try)
    ensures var s' := Do(Do(s, Queue(task)), Try);
            && s'.driver.Looking? && s'.pool == s.pool + [task]
            && (forall more: seq<Action> :: Legal(s', more) && Resting(After(s', more)) ==>
                  exists k: nat :: k <= |more| && Legal(s', more[..k]) && After(s', more[..k]).pool == [])
            && Legal(s', Drained(|s'.pool|)) && After(s', Drained(|s'.pool|)).pool == []
  {
    hide Legal, After;
    var s' := Do(Do(s, Queue(task)), Try);
    DrainsAll(s', |s'.pool|);
    forall more: seq<Action> | Legal(s', more) && Resting(After(s', more))
      ensures exists k: nat :: k <= |more| && Legal(s', more[..k]) && After(s', more[..k]).pool == []
    {
      var k := StopsAtEmpty(s', more);
    }
  }

  lemma {:induction false} OneMore(s: State, run: seq<Action>, a: Action)
    requires Legal(s, run) && Can(After(s, run), a)
    ensures Legal(s, run + [a]) && After(s, run + [a]) == Do(After(s, run), a)
    decreases |run|
  {
    hide Can, Do;
    if run == [] {
      assert (run + [a])[1..] == [];
    } else {
      OneMore(Do(s, run[0]), run[1..], a);
      assert (run + [a])[1..] == run[1..] + [a];
    }
  }

  /** It can happen: a second ballot arrives between the drain loop's last look and the release of the lock. */
  lemma BallotLeftBehind(first: MiningTask, second: MiningTask) returns (run: seq<Action>)
    ensures Legal(START, run) && Stranded(After(START, run)) && After(START, run).pool == [second]
  {
    hide Legal, After;
    run := [];
    assert Legal(START, run) && After(START, run) == START by {
      NoSteps(START);
    }
    OneMore(START, run, Queue(first));
    run := run + [Queue(first)];
    OneMore(START, run, Try);
    run := run + [Try];
    assert After(START, run) == State([first], Looking, 0);
    OneMore(START, run, Look);
    run := run + [Look];
    OneMore(START, run, Finish(false));
    run := run + [Finish(false)];
    assert After(START, run) == State([], Looking, 0);
    OneMore(START, run, Look);
    run := run + [Look];
    OneMore(START, run, Queue(second));
    run := run + [Queue(second)];
    assert After(START, run) == State([second], Leaving, 1);
    OneMore(START, run, Try);
    run := run + [Try];
    OneMore(START, run, Leave);
    run := run + [Leave];
  }
}
