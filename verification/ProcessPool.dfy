/** The process pool's supervisor (ProcessPoolLib/ProcessPool.cpp): refill, wait, erase, until the
    exit event is signalled. */
module ProcessPool {
  import opened ScopedResources

  const MAXIMUM_WAIT_OBJECTS: nat := 64
  const WAIT_FAILED: nat := 0xFFFF_FFFF

  /** What the operating system answers to one attempt to start a process. */
  datatype Launch = NotCreated | Created(process: nat, thread: nat, joined: bool, resumed: bool)

  /** One iteration's environment: the answers to the creations, the processes that have died by
      the time of the wait, whether the exit event is set then, and whether the wait fails. */
  datatype Round = Round(launches: seq<Launch>, dead: set<nat>, exit: bool, failed: bool)

  /** The list of processes, and a record: which processes were ever created, removed from the list
      or terminated; which are in the job and running; and the CloseHandle calls. */
  datatype Pool = Pool(
    processes: seq<nat>, created: seq<nat>, removed: seq<nat>, terminated: seq<nat>,
    threads: set<nat>, joined: set<nat>, resumed: set<nat>, closed: seq<nat>)

  const EMPTY := Pool([], [], [], [], {}, {}, {}, [])

  /** The operating system hands out handles that have not been seen before. */
  predicate IsFresh(created: seq<nat>, threads: set<nat>, l: Launch) {
    l.Created? ==>
      && l.process != INVALID && l.thread != INVALID && l.process != l.thread
      && l.process !in created && l.process !in threads
      && l.thread !in created && l.thread !in threads
  }

  // ----- Specification -----

  /** CreateProcess: a process that cannot be put into the job or resumed is terminated. The thread
      handle is closed in any case, the process handle only if it is not listed. */
  function Create(p: Pool, l: Launch): Pool {
    if l.NotCreated? || !IsFresh(p.created, p.threads, l) then p else Conclude(Begin(p, l), l)
  }

  function Begin(p: Pool, l: Launch): Pool
    requires l.Created?
  {
    p.(created := p.created + [l.process], threads := p.threads + {l.thread},
       joined := if l.joined then p.joined + {l.process} else p.joined,
       resumed := if l.resumed then p.resumed + {l.process} else p.resumed)
  }

  function Conclude(p: Pool, l: Launch): Pool
    requires l.Created?
  {
    if l.joined && l.resumed then
      p.(processes := p.processes + [l.process], closed := p.closed + [l.thread])
    else
      p.(terminated := p.terminated + [l.process], closed := p.closed + [l.thread, l.process])
  }

  /** As many attempts as processes are missing. */
  function Refill(p: Pool, launches: seq<Launch>, attempts: nat): Pool
    decreases attempts
  {
    if attempts == 0 then p
    else
      var l := if launches == [] then NotCreated else launches[0];
      Refill(Create(p, l), if launches == [] then [] else launches[1..], attempts - 1)
  }

  function Missing(p: Pool, target: nat): nat {
    if |p.processes| < target then target - |p.processes| else 0
  }

  /** The lowest signalled index; the exit event comes after all processes. */
  function LowestSignalled(processes: seq<nat>, dead: set<nat>): (i: nat)
    ensures i <= |processes|
    ensures i < |processes| ==> processes[i] in dead
    ensures forall j | 0 <= j < i :: processes[j] !in dead
  {
    if processes == [] || processes[0] in dead then 0 else 1 + LowestSignalled(processes[1..], dead)
  }

  /** WaitForMultipleObjects on the processes and the exit event. */
  function Wait(processes: seq<nat>, round: Round): nat {
    if |processes| + 1 > MAXIMUM_WAIT_OBJECTS || round.failed then WAIT_FAILED
    else LowestSignalled(processes, round.dead)
  }

  /** The wait returns: it fails, or a process has died, or the exit event is set. */
  predicate Wakes(p: Pool, target: nat, round: Round) {
    var processes := Refill(p, round.launches, Missing(p, target)).processes;
    Wait(processes, round) == |processes| ==> round.exit
  }

  function RemoveAt(p: Pool, i: nat): Pool
    requires i < |p.processes|
  {
    p.(processes := Without(p.processes, i),
       removed := p.removed + [p.processes[i]],
       closed := p.closed + if i == |p.processes| - 1 then [p.processes[i]] else [])
  }

  /** One iteration of ThreadMain, whose wait returns; the flag says that the loop ends. */
  function Iterate(p: Pool, target: nat, round: Round): (Pool, bool)
    requires Wakes(p, target, round)
  {
    var refilled := Refill(p, round.launches, Missing(p, target));
    var signalled := Wait(refilled.processes, round);
    if signalled == |refilled.processes| then (refilled, true)
    else if signalled < |refilled.processes| then (RemoveAt(refilled, signalled), false)
    else (refilled, false)
  }

  /** No round of the run blocks for ever: each wait returns, up to the end of the loop. */
  predicate AllWake(p: Pool, target: nat, rounds: seq<Round>)
    decreases |rounds|
  {
    rounds == [] ||
    (Wakes(p, target, rounds[0])
     && (Iterate(p, target, rounds[0]).1 || AllWake(Iterate(p, target, rounds[0]).0, target, rounds[1..])))
  }

  /** The loop over an observed sequence of rounds; the flag says that it has ended. */
  function Supervise(p: Pool, target: nat, rounds: seq<Round>): (Pool, bool)
    requires AllWake(p, target, rounds)
    decreases |rounds|
  {
    if rounds == [] then (p, false)
    else
      var (p', ended) := Iterate(p, target, rounds[0]);
      if ended then (p', true) else Supervise(p', target, rounds[1..])
  }

  // ----- Accounting -----

  /** Each process ever created is exactly one of listed, removed and terminated. */
  predicate Accounted(p: Pool) {
    && multiset(p.created) == multiset(p.processes) + multiset(p.removed) + multiset(p.terminated)
    && Distinct(p.created)
  }

  /** No handle has been closed twice, and no listed process's handle has been closed. */
  predicate HandlesOwned(p: Pool) {
    && Distinct(p.closed)
    && (forall h | h in p.processes :: h !in p.closed)
    && (forall h | h in p.closed :: h in p.threads || h in p.created)
    && (forall h | h in p.threads :: h !in p.created)
    && (forall h | h in p.processes :: h in p.created)
    && INVALID !in p.created
  }

  /** The handle of every thread, and of every terminated process, has been closed; with
      HandlesOwned, exactly once. */
  predicate HandlesReleased(p: Pool) {
    (forall h | h in p.threads :: h in p.closed) && (forall h | h in p.terminated :: h in p.closed)
  }

  /** A process is listed if it was put into the job and resumed, and terminated if it was not. */
  predicate Deserved(p: Pool) {
    && (forall h | h in p.processes :: h in p.joined && h in p.resumed)
    && (forall h | h in p.terminated :: h in p.created && !(h in p.joined && h in p.resumed))
    && (forall h | h in p.joined + p.resumed :: h in p.created)
  }

  predicate PoolInv(p: Pool, target: nat) {
    |p.processes| <= target && Deserved(p) && Accounted(p) && HandlesOwned(p) && HandlesReleased(p)
  }

  lemma DistinctAppend<T>(s: seq<T>, x: T)
    requires Distinct(s) && x !in s
    ensures Distinct(s + [x])
  {
  }

  /** A process that is listed. */
  lemma ListedKeeps(p: Pool, target: nat, l: Launch)
    requires PoolInv(p, target) && |p.processes| < target && Succeeds(p, l)
    ensures PoolInv(Create(p, l), target)
  {
    DistinctAppend(p.created, l.process);
    DistinctAppend(p.closed, l.thread);
    var p' := Create(p, l);
    assert multiset(p'.processes) == multiset(p.processes) + multiset{l.process};
    assert multiset(p'.created) == multiset(p.created) + multiset{l.process};
    assert forall h | h in p'.closed :: h in p.closed || h == l.thread;
    assert forall h | h in p'.processes :: h in p.processes || h == l.process;
  }

  /** A process that cannot be used. */
  lemma TerminatedKeeps(p: Pool, target: nat, l: Launch)
    requires PoolInv(p, target) && l.Created? && IsFresh(p.created, p.threads, l) && !(l.joined && l.resumed)
    ensures PoolInv(Create(p, l), target)
  {
    TerminatedCloses(p, l);
    DistinctAppend(p.created, l.process);
    var p' := Create(p, l);
    assert multiset(p'.terminated) == multiset(p.terminated) + multiset{l.process};
    assert multiset(p'.created) == multiset(p.created) + multiset{l.process};
  }

  lemma TerminatedCloses(p: Pool, l: Launch)
    requires HandlesOwned(p) && l.Created? && IsFresh(p.created, p.threads, l) && !(l.joined && l.resumed)
    ensures HandlesOwned(Create(p, l))
  {
    var p' := Create(p, l);
    DistinctAppend(p.closed, l.thread);
    DistinctAppend(p.closed + [l.thread], l.process);
    assert p'.closed == p.closed + [l.thread] + [l.process];
    assert forall h | h in p'.closed :: h in p.closed || h == l.thread || h == l.process;
  }

  lemma CreateKeeps(p: Pool, target: nat, l: Launch)
    requires PoolInv(p, target) && |p.processes| < target
    ensures PoolInv(Create(p, l), target)
    ensures |Create(p, l).processes| <= |p.processes| + 1
  {
    if l.Created? && IsFresh(p.created, p.threads, l) {
      if l.joined && l.resumed {
        ListedKeeps(p, target, l);
      } else {
        TerminatedKeeps(p, target, l);
      }
    }
  }

  lemma {:induction false} RefillKeeps(p: Pool, target: nat, launches: seq<Launch>, attempts: nat)
    requires PoolInv(p, target) && |p.processes| + attempts <= target
    ensures PoolInv(Refill(p, launches, attempts), target)
    decreases attempts
  {
    if attempts > 0 {
      var l := if launches == [] then NotCreated else launches[0];
      CreateKeeps(p, target, l);
      RefillKeeps(Create(p, l), target, if launches == [] then [] else launches[1..], attempts - 1);
    }
  }

  /** The launch succeeds and the process joins the list. */
  predicate Succeeds(p: Pool, l: Launch) {
    l.Created? && IsFresh(p.created, p.threads, l) && l.joined && l.resumed
  }

  predicate AllSucceed(p: Pool, launches: seq<Launch>, attempts: nat)
    decreases attempts
  {
    attempts == 0 ||
    (launches != [] && Succeeds(p, launches[0]) && AllSucceed(Create(p, launches[0]), launches[1..], attempts - 1))
  }

  /** When all creations succeed, the refill brings the list to the target size. */
  lemma {:induction false} RefillReachesTarget(p: Pool, target: nat, launches: seq<Launch>, attempts: nat)
    requires |p.processes| + attempts == target && AllSucceed(p, launches, attempts)
    ensures |Refill(p, launches, attempts).processes| == target
    decreases attempts
  {
    if attempts > 0 {
      RefillReachesTarget(Create(p, launches[0]), target, launches[1..], attempts - 1);
    }
  }

  // ----- What a refill starts -----

  /** The first `n` answers, or all if there are fewer; a creation without an answer has failed. */
  function FirstOf(launches: seq<Launch>, n: nat): seq<Launch> {
    if n <= |launches| then launches[..n] else launches
  }

  predicate IsCreation(created: seq<nat>, threads: set<nat>, l: Launch) {
    l.Created? && IsFresh(created, threads, l)
  }

  predicate AllCreated(ls: seq<Launch>) {
    forall i | 0 <= i < |ls| :: ls[i].Created?
  }

  /** The answers that are creations, given what has been handed out before. */
  function Creations(created: seq<nat>, threads: set<nat>, launches: seq<Launch>): (ls: seq<Launch>)
    ensures AllCreated(ls) && |ls| <= |launches|
    decreases |launches|
  {
    if launches == [] then []
    else
      var l := launches[0];
      if IsCreation(created, threads, l)
      then [l] + Creations(created + [l.process], threads + {l.thread}, launches[1..])
      else Creations(created, threads, launches[1..])
  }

  function Processes(ls: seq<Launch>): (hs: seq<nat>)
    requires AllCreated(ls)
    ensures |hs| == |ls|
  {
    seq(|ls|, i requires 0 <= i < |ls| => ls[i].process)
  }

  /** The creations that were put into the job and resumed, or the others. */
  function Chosen(ls: seq<Launch>, usable: bool): (r: seq<Launch>)
    requires AllCreated(ls)
    ensures AllCreated(r)
  {
    if ls == [] then []
    else (if usable <==> ls[0].joined && ls[0].resumed then [ls[0]] else []) + Chosen(ls[1..], usable)
  }

  function ThreadsOf(ls: seq<Launch>): set<nat>
    requires AllCreated(ls)
  {
    if ls == [] then {} else {ls[0].thread} + ThreadsOf(ls[1..])
  }

  function JoinedOf(ls: seq<Launch>): set<nat>
    requires AllCreated(ls)
  {
    if ls == [] then {} else (if ls[0].joined then {ls[0].process} else {}) + JoinedOf(ls[1..])
  }

  function ResumedOf(ls: seq<Launch>): set<nat>
    requires AllCreated(ls)
  {
    if ls == [] then {} else (if ls[0].resumed then {ls[0].process} else {}) + ResumedOf(ls[1..])
  }

  /** From `p` to `p'` the processes `ls` were started: those that were put into the job and resumed
      joined the list, in order, and the others were terminated. */
  predicate Starts(p: Pool, p': Pool, ls: seq<Launch>)
    requires AllCreated(ls)
  {
    && p'.created == p.created + Processes(ls) && p'.removed == p.removed
    && p'.processes == p.processes + Processes(Chosen(ls, true))
    && p'.terminated == p.terminated + Processes(Chosen(ls, false))
    && p'.threads == p.threads + ThreadsOf(ls)
    && p'.joined == p.joined + JoinedOf(ls) && p'.resumed == p.resumed + ResumedOf(ls)
  }

  lemma {:induction false} RefillStarts(p: Pool, launches: seq<Launch>, attempts: nat)
    ensures Starts(p, Refill(p, launches, attempts),
                   Creations(p.created, p.threads, FirstOf(launches, attempts)))
    decreases attempts
  {
    if attempts == 0 || launches == [] {
      NothingStarts(p, launches, attempts);
    } else {
      var l := launches[0];
      var rest := FirstOf(launches[1..], attempts - 1);
      assert FirstOf(launches, attempts) == [l] + rest;
      RefillStarts(Create(p, l), launches[1..], attempts - 1);
      if IsCreation(p.created, p.threads, l) {
        var more := Creations(p.created + [l.process], p.threads + {l.thread}, rest);
        OneStarts(p, l, Refill(p, launches, attempts), more);
      }
    }
  }

  lemma {:induction false} NothingStarts(p: Pool, launches: seq<Launch>, attempts: nat)
    requires attempts == 0 || launches == []
    ensures Refill(p, launches, attempts) == p && Creations(p.created, p.threads, FirstOf(launches, attempts)) == []
    ensures Starts(p, p, [])
    decreases attempts
  {
    if attempts > 0 {
      NothingStarts(p, [], attempts - 1);
    }
  }

  lemma ProcessesOfConcat(a: seq<Launch>, b: seq<Launch>)
    requires AllCreated(a) && AllCreated(b)
    ensures Processes(a + b) == Processes(a) + Processes(b)
  {
  }

  lemma OneStarts(p: Pool, l: Launch, p': Pool, more: seq<Launch>)
    requires l.Created? && AllCreated(more) && IsFresh(p.created, p.threads, l) && Starts(Create(p, l), p', more)
    ensures Starts(p, p', [l] + more)
  {
    var listed := if l.joined && l.resumed then [l.process] else [];
    var failed := if l.joined && l.resumed then [] else [l.process];
    OneCreated(l, more);
    OneChosen(l, more, true);
    OneChosen(l, more, false);
    InFront(p.created, [l.process], Processes(more));
    InFront(p.processes, listed, Processes(Chosen(more, true)));
    InFront(p.terminated, failed, Processes(Chosen(more, false)));
  }

  lemma InFront(a: seq<nat>, b: seq<nat>, c: seq<nat>)
    ensures a + b + c == a + (b + c) && a + [] == a
  {
  }

  lemma OneCreated(l: Launch, more: seq<Launch>)
    requires l.Created? && AllCreated(more)
    ensures Processes([l] + more) == [l.process] + Processes(more)
    ensures ThreadsOf([l] + more) == {l.thread} + ThreadsOf(more)
    ensures JoinedOf([l] + more) == (if l.joined then {l.process} else {}) + JoinedOf(more)
    ensures ResumedOf([l] + more) == (if l.resumed then {l.process} else {}) + ResumedOf(more)
  {
    assert ([l] + more)[1..] == more;
  }

  lemma OneChosen(l: Launch, more: seq<Launch>, usable: bool)
    requires l.Created? && AllCreated(more)
    ensures Processes(Chosen([l] + more, usable)) ==
            (if usable <==> l.joined && l.resumed then [l.process] else []) + Processes(Chosen(more, usable))
  {
    var first := if usable <==> l.joined && l.resumed then [l] else [];
    assert ([l] + more)[1..] == more;
    assert Chosen([l] + more, usable) == first + Chosen(more, usable);
    ProcessesOfConcat(first, Chosen(more, usable));
  }

  lemma WithoutIsMultiset(s: seq<nat>, i: nat)
    requires i < |s|
    ensures multiset(s) == multiset(Without(s, i)) + multiset{s[i]}
    ensures forall h | h in Without(s, i) :: h in s
    ensures Distinct(s) ==> s[i] !in Without(s, i) && Distinct(Without(s, i))
  {
    assert s == s[..i] + [s[i]] + s[i + 1..];
  }

  lemma PartOfDistinct(all: seq<nat>, s: seq<nat>)
    requires Distinct(all) && multiset(s) <= multiset(all)
    ensures Distinct(s)
  {
    forall i, j | 0 <= i < j < |s|
      ensures s[i] != s[j]
    {
      if s[i] == s[j] {
        assert s == s[..i] + [s[i]] + s[i + 1..j] + [s[j]] + s[j + 1..];
        assert multiset(s)[s[i]] >= 2;
        DistinctCounts(all, s[i]);
      }
    }
  }

  lemma {:induction false} DistinctCounts(s: seq<nat>, x: nat)
    requires Distinct(s)
    ensures multiset(s)[x] <= 1
  {
    if s != [] {
      assert s == [s[0]] + s[1..];
      DistinctCounts(s[1..], x);
      assert s[0] == x ==> x !in s[1..];
    }
  }

  lemma RemoveKeeps(p: Pool, target: nat, i: nat)
    requires PoolInv(p, target) && i < |p.processes|
    ensures PoolInv(RemoveAt(p, i), target)
  {
    var h := p.processes[i];
    WithoutIsMultiset(p.processes, i);
    PartOfDistinct(p.created, p.processes);
    assert multiset(p.removed + [h]) == multiset(p.removed) + multiset{h};
    DistinctAppend(p.closed, h);
    assert p.closed + [] == p.closed;
  }

  lemma IterateKeeps(p: Pool, target: nat, round: Round)
    requires PoolInv(p, target) && Wakes(p, target, round)
    ensures PoolInv(Iterate(p, target, round).0, target)
  {
    var refilled := Refill(p, round.launches, Missing(p, target));
    RefillKeeps(p, target, round.launches, Missing(p, target));
    var signalled := Wait(refilled.processes, round);
    if signalled < |refilled.processes| {
      RemoveKeeps(refilled, target, signalled);
    }
  }

  lemma {:induction false} PoolAccounting(p: Pool, target: nat, rounds: seq<Round>)
    requires PoolInv(p, target) && AllWake(p, target, rounds)
    ensures PoolInv(Supervise(p, target, rounds).0, target)
    decreases |rounds|
  {
    if rounds != [] {
      IterateKeeps(p, target, rounds[0]);
      var (p', ended) := Iterate(p, target, rounds[0]);
      if !ended {
        PoolAccounting(p', target, rounds[1..]);
      }
    }
  }

  // ----- What a round and a run start -----

  predicate IsFirstDead(processes: seq<nat>, dead: set<nat>, i: int) {
    0 <= i < |processes| && processes[i] in dead && forall j | 0 <= j < i :: processes[j] !in dead
  }

  /** What becomes of the processes `listed` in the wait of a round: the first dead one leaves the list,
      unless the wait failed or there was none. */
  ghost predicate Leaves(listed: seq<nat>, removed: seq<nat>, round: Round, p': Pool, ended: bool) {
    if round.failed || |listed| >= 64 then
      !ended && p'.processes == listed && p'.removed == removed
    else if forall h | h in listed :: h !in round.dead then
      ended && round.exit && p'.processes == listed && p'.removed == removed
    else
      !ended && exists i ::
        IsFirstDead(listed, round.dead, i)
        && p'.processes == Without(listed, i) && p'.removed == removed + [listed[i]]
  }

  /** From `p` to `p'`: of the first `target - |p.processes|` answers, exactly the creations have been
      started; then the wait has taken its effect. */
  ghost predicate RoundDoes(p: Pool, target: nat, round: Round, p': Pool, ended: bool)
    requires |p.processes| <= target
  {
    var due := Creations(p.created, p.threads, FirstOf(round.launches, target - |p.processes|));
    var listed := p.processes + Processes(Chosen(due, true));
    && Starts(p, p'.(processes := listed, removed := p.removed), due)
    && Leaves(listed, p.removed, round, p', ended)
  }

  lemma WaitDecides(p: Pool, target: nat, round: Round)
    requires PoolInv(p, target) && Wakes(p, target, round) && target < WAIT_FAILED
    ensures var listed := Refill(p, round.launches, target - |p.processes|).processes;
            Leaves(listed, p.removed, round, Iterate(p, target, round).0, Iterate(p, target, round).1)
  {
    var attempts := target - |p.processes|;
    RefillKeeps(p, target, round.launches, attempts);
    RefillGrows(p, round.launches, attempts);
    var refilled := Refill(p, round.launches, attempts);
    var i := Wait(refilled.processes, round);
    if i < |refilled.processes| {
      assert IsFirstDead(refilled.processes, round.dead, i);
      assert refilled.processes[i] in refilled.processes;
    }
  }

  /** What the wait does not touch. */
  lemma WaitLeavesTheRest(p: Pool, target: nat, round: Round)
    requires Wakes(p, target, round) && |p.processes| <= target
    ensures var refilled := Refill(p, round.launches, target - |p.processes|);
            var p' := Iterate(p, target, round).0;
            p'.(processes := refilled.processes, removed := refilled.removed, closed := refilled.closed) == refilled
  {
  }

  lemma RoundExactly(p: Pool, target: nat, round: Round)
    requires PoolInv(p, target) && Wakes(p, target, round) && target < WAIT_FAILED
    ensures RoundDoes(p, target, round, Iterate(p, target, round).0, Iterate(p, target, round).1)
  {
    RefillStarts(p, round.launches, target - |p.processes|);
    WaitDecides(p, target, round);
    WaitLeavesTheRest(p, target, round);
  }

  /** If every missing process starts, the list is filled up to the target before the wait. */
  lemma RoundFills(p: Pool, target: nat, round: Round)
    requires PoolInv(p, target) && Wakes(p, target, round) && target < WAIT_FAILED
    requires AllSucceed(p, round.launches, target - |p.processes|)
    ensures var (p', ended) := Iterate(p, target, round);
            && |p'.processes| + |p'.removed| - |p.removed| == target
            && |p.removed| <= |p'.removed| <= |p.removed| + 1 && (ended ==> |p'.processes| == target)
  {
    RefillReachesTarget(p, target, round.launches, target - |p.processes|);
    WaitDecides(p, target, round);
  }

  lemma AsListed(p: Pool, target: nat, round: Round)
    requires PoolInv(p, target) && Wakes(p, target, round) && target < WAIT_FAILED
    ensures var p' := Iterate(p, target, round).0;
            var due := Creations(p.created, p.threads, FirstOf(round.launches, target - |p.processes|));
            p'.created == p.created + Processes(due) && p'.terminated == p.terminated + Processes(Chosen(due, false))
  {
    RoundExactly(p, target, round);
  }

  /** The creations of a whole run: those of the first round, and of the rounds that follow it. */
  function AllCreations(p: Pool, target: nat, rounds: seq<Round>): (ls: seq<Launch>)
    requires PoolInv(p, target) && AllWake(p, target, rounds)
    ensures AllCreated(ls)
    decreases |rounds|
  {
    if rounds == [] then []
    else
      var due := Creations(p.created, p.threads, FirstOf(rounds[0].launches, target - |p.processes|));
      var (p', ended) := Iterate(p, target, rounds[0]);
      IterateKeeps(p, target, rounds[0]);
      due + if ended then [] else AllCreations(p', target, rounds[1..])
  }

  lemma {:induction false} ChosenOfConcat(a: seq<Launch>, b: seq<Launch>, usable: bool)
    requires AllCreated(a) && AllCreated(b)
    ensures Chosen(a + b, usable) == Chosen(a, usable) + Chosen(b, usable)
  {
    if a == [] {
      assert a + b == b;
    } else {
      assert (a + b)[1..] == a[1..] + b;
      ChosenOfConcat(a[1..], b, usable);
    }
  }

  /** Over every run: exactly the creations among the answers to each round's missing processes have
      been created, and exactly those that could not be used have been terminated. */
  lemma {:induction false} RunCreates(p: Pool, target: nat, rounds: seq<Round>)
    requires PoolInv(p, target) && AllWake(p, target, rounds) && target < WAIT_FAILED
    ensures var p' := Supervise(p, target, rounds).0;
            var ls := AllCreations(p, target, rounds);
            p'.created == p.created + Processes(ls) && p'.terminated == p.terminated + Processes(Chosen(ls, false))
    decreases |rounds|
  {
    if rounds != [] {
      var due := Creations(p.created, p.threads, FirstOf(rounds[0].launches, target - |p.processes|));
      var (p', ended) := Iterate(p, target, rounds[0]);
      AsListed(p, target, rounds[0]);
      IterateKeeps(p, target, rounds[0]);
      if ended {
        assert due + [] == due;
      } else {
        RunCreates(p', target, rounds[1..]);
        Appended(p, due, p', AllCreations(p', target, rounds[1..]), Supervise(p', target, rounds[1..]).0);
      }
    }
  }

  lemma Appended(p: Pool, first: seq<Launch>, p': Pool, more: seq<Launch>, p'': Pool)
    requires AllCreated(first) && AllCreated(more)
    requires p'.created == p.created + Processes(first) && p''.created == p'.created + Processes(more)
    requires p'.terminated == p.terminated + Processes(Chosen(first, false))
    requires p''.terminated == p'.terminated + Processes(Chosen(more, false))
    ensures p''.created == p.created + Processes(first + more)
    ensures p''.terminated == p.terminated + Processes(Chosen(first + more, false))
  {
    ProcessesOfConcat(first, more);
    ChosenOfConcat(first, more, false);
    ProcessesOfConcat(Chosen(first, false), Chosen(more, false));
    InFront(p.created, Processes(first), Processes(more));
    InFront(p.terminated, Processes(Chosen(first, false)), Processes(Chosen(more, false)));
  }

  /** In every round up to the end of the loop, every process that was missing starts. */
  predicate EveryoneStarts(p: Pool, target: nat, rounds: seq<Round>)
    requires PoolInv(p, target) && AllWake(p, target, rounds)
    decreases |rounds|
  {
    rounds == [] ||
    (AllSucceed(p, rounds[0].launches, target - |p.processes|)
     && (IterateKeeps(p, target, rounds[0]);
         Iterate(p, target, rounds[0]).1 || EveryoneStarts(Iterate(p, target, rounds[0]).0, target, rounds[1..])))
  }

  /** As long as processes can be started, every one that dies is replaced: after any number of rounds
      the list is full but for the one that the last round removed, and full when the loop ends. */
  lemma {:induction false} PoolStaysFull(p: Pool, target: nat, rounds: seq<Round>)
    requires PoolInv(p, target) && AllWake(p, target, rounds) && target < WAIT_FAILED
    requires rounds != [] && EveryoneStarts(p, target, rounds)
    ensures var (p', ended) := Supervise(p, target, rounds);
            && target <= |p'.processes| + 1 && |p'.processes| <= target
            && (ended ==> |p'.processes| == target)
    decreases |rounds|
  {
    RoundFills(p, target, rounds[0]);
    IterateKeeps(p, target, rounds[0]);
    var (p', ended) := Iterate(p, target, rounds[0]);
    if !ended && |rounds| > 1 {
      PoolStaysFull(p', target, rounds[1..]);
    }
  }

  /** The processes that had died by some wait of the run. */
  function Dead(rounds: seq<Round>): set<nat> {
    if rounds == [] then {} else rounds[0].dead + Dead(rounds[1..])
  }

  /** What a round removes was dead at its wait; a round that removes nothing ends the loop or had
      a failed wait. */
  lemma RoundRemoves(p: Pool, target: nat, round: Round)
    requires PoolInv(p, target) && Wakes(p, target, round) && target < WAIT_FAILED
    ensures var (p', ended) := Iterate(p, target, round);
            && p.terminated <= p'.terminated
            && if ended || WaitFails(p, target, round) then p'.removed == p.removed
               else exists h :: h in round.dead && p'.removed == p.removed + [h]
  {
    var attempts := Missing(p, target);
    RefillKeeps(p, target, round.launches, attempts);
    RefillGrows(p, round.launches, attempts);
    var refilled := Refill(p, round.launches, attempts);
    var signalled := Wait(refilled.processes, round);
    if signalled < |refilled.processes| {
      assert refilled.processes[signalled] in round.dead;
    }
  }

  /** The wait of the round fails: it is reported to, or there are too many handles. */
  predicate WaitFails(p: Pool, target: nat, round: Round) {
    round.failed || |Refill(p, round.launches, Missing(p, target)).processes| + 1 > MAXIMUM_WAIT_OBJECTS
  }

  /** Over every run, for every target: whatever is removed was signalled, and what was removed or
      terminated before stays on record. */
  lemma {:induction false} RemovedWereSignalled(p: Pool, target: nat, rounds: seq<Round>)
    requires PoolInv(p, target) && AllWake(p, target, rounds) && target < WAIT_FAILED
    ensures var p' := Supervise(p, target, rounds).0;
            && p.removed <= p'.removed && p.terminated <= p'.terminated
            && forall i | |p.removed| <= i < |p'.removed| :: p'.removed[i] in Dead(rounds)
    decreases |rounds|
  {
    if rounds != [] {
      RoundRemoves(p, target, rounds[0]);
      IterateKeeps(p, target, rounds[0]);
      var (p', ended) := Iterate(p, target, rounds[0]);
      if !ended {
        RemovedWereSignalled(p', target, rounds[1..]);
      }
    }
  }

  lemma StartsAccounted(target: nat)
    ensures PoolInv(EMPTY, target)
  {
  }

  /** Every run of the supervisor, from the empty list on: never more processes than the target;
      each process ever created is exactly one of listed, removed and terminated; a listed one was
      put into the job and resumed, a removed one had its handle signalled, a terminated one failed
      to be put into the job or resumed; no handle is closed twice, and none of a listed process. */
  lemma PoolHistory(target: nat, rounds: seq<Round>)
    requires AllWake(EMPTY, target, rounds) && target < WAIT_FAILED
    ensures var p := Supervise(EMPTY, target, rounds).0;
            PoolInv(p, target) && forall h | h in p.removed :: h in Dead(rounds)
  {
    StartsAccounted(target);
    PoolAccounting(EMPTY, target, rounds);
    RemovedWereSignalled(EMPTY, target, rounds);
  }

  /** In every run from the empty list: the handle of each thread ever started, and of each process
      that was terminated, has been closed exactly once. */
  lemma ClosedExactlyOnce(target: nat, rounds: seq<Round>, h: nat)
    requires AllWake(EMPTY, target, rounds)
    ensures var p := Supervise(EMPTY, target, rounds).0;
            h in p.threads || h in p.terminated ==> multiset(p.closed)[h] == 1
  {
    StartsAccounted(target);
    PoolAccounting(EMPTY, target, rounds);
    DistinctCounts(Supervise(EMPTY, target, rounds).0.closed, h);
  }

  // ----- Shutdown -----

  /** Given that its wait returned, a round ends the loop exactly when the exit event is set, the
      wait does not fail, no listed process is dead, and there are few enough processes to be
      waited for together with the event. */
  lemma EndsExactly(p: Pool, target: nat, round: Round)
    requires Wakes(p, target, round) && |p.processes| <= target < WAIT_FAILED && PoolInv(p, target)
    ensures var processes := Refill(p, round.launches, Missing(p, target)).processes;
            Iterate(p, target, round).1 <==>
              && round.exit && !round.failed && |processes| < MAXIMUM_WAIT_OBJECTS
              && forall h | h in processes :: h !in round.dead
  {
    RefillKeeps(p, target, round.launches, Missing(p, target));
    var processes := Refill(p, round.launches, Missing(p, target)).processes;
    var i := LowestSignalled(processes, round.dead);
    assert i < |processes| ==> processes[i] in processes;
  }

  /** A pool that lists more processes than can be waited for never ends, whatever happens: its
      waits return at once, having failed. */
  lemma {:induction false} OversizedNeverEnds(p: Pool, target: nat, rounds: seq<Round>)
    requires PoolInv(p, target) && MAXIMUM_WAIT_OBJECTS <= |p.processes| <= target < WAIT_FAILED
    ensures AllWake(p, target, rounds) && !Supervise(p, target, rounds).1
    decreases |rounds|
  {
    if rounds != [] {
      RefillKeeps(p, target, rounds[0].launches, Missing(p, target));
      RefillGrows(p, rounds[0].launches, Missing(p, target));
      OversizedNeverEnds(Iterate(p, target, rounds[0]).0, target, rounds[1..]);
    }
  }

  lemma {:induction false} RefillGrows(p: Pool, launches: seq<Launch>, attempts: nat)
    ensures |Refill(p, launches, attempts).processes| >= |p.processes|
    ensures Refill(p, launches, attempts).removed == p.removed
    ensures p.terminated <= Refill(p, launches, attempts).terminated
    ensures p.created <= Refill(p, launches, attempts).created
    decreases attempts
  {
    if attempts > 0 {
      var l := if launches == [] then NotCreated else launches[0];
      RefillGrows(Create(p, l), if launches == [] then [] else launches[1..], attempts - 1);
    }
  }

  /** Launches that succeed, with handles counted up from `first`. */
  function GoodLaunches(first: nat, n: nat): seq<Launch>
    decreases n
  {
    if n == 0 then [] else [Created(first, first + 1, true, true)] + GoodLaunches(first + 2, n - 1)
  }

  lemma {:induction false} GoodLaunchesSucceed(p: Pool, first: nat, n: nat)
    requires first > INVALID && forall h | h in p.created || h in p.threads :: h < first
    ensures AllSucceed(p, GoodLaunches(first, n), n)
    decreases n
  {
    if n > 0 {
      var l := Created(first, first + 1, true, true);
      GoodLaunchesSucceed(Create(p, l), first + 2, n - 1);
      assert GoodLaunches(first, n)[1..] == GoodLaunches(first + 2, n - 1);
    }
  }

  /** The first round of a run in which every process starts. */
  function AllStart(target: nat): Round {
    Round(GoodLaunches(INVALID + 1, target), {}, false, false)
  }

  /** With a target of 64 or more, a run from the empty list in which every process starts is such a
      run: it fills the list, and never ends, whatever happens then. */
  lemma FilledNeverEnds(target: nat, rounds: seq<Round>)
    requires MAXIMUM_WAIT_OBJECTS <= target < WAIT_FAILED
    ensures Wakes(EMPTY, target, AllStart(target))
    ensures |Iterate(EMPTY, target, AllStart(target)).0.processes| == target
    ensures AllWake(EMPTY, target, [AllStart(target)] + rounds)
    ensures !Supervise(EMPTY, target, [AllStart(target)] + rounds).1
  {
    var launches := GoodLaunches(INVALID + 1, target);
    StartsAccounted(target);
    GoodLaunchesSucceed(EMPTY, INVALID + 1, target);
    RefillReachesTarget(EMPTY, target, launches, target);
    RefillKeeps(EMPTY, target, launches, target);
    OversizedNeverEnds(Refill(EMPTY, launches, target), target, rounds);
    assert ([AllStart(target)] + rounds)[1..] == rounds;
  }

  /** How many waits of the run fail. */
  function FailedWaits(p: Pool, target: nat, rounds: seq<Round>): nat
    requires AllWake(p, target, rounds)
    decreases |rounds|
  {
    if rounds == [] then 0
    else
      var (p', ended) := Iterate(p, target, rounds[0]);
      (if WaitFails(p, target, rounds[0]) then 1 else 0)
      + if ended then 0 else FailedWaits(p', target, rounds[1..])
  }

  /** As long as the loop does not end, every round removes a process or has a failed wait. */
  lemma {:induction false} RoundsRemove(p: Pool, target: nat, rounds: seq<Round>)
    requires PoolInv(p, target) && AllWake(p, target, rounds) && target < WAIT_FAILED
    requires !Supervise(p, target, rounds).1
    ensures |rounds| == |Supervise(p, target, rounds).0.removed| - |p.removed| + FailedWaits(p, target, rounds)
    decreases |rounds|
  {
    if rounds != [] {
      RoundRemoves(p, target, rounds[0]);
      IterateKeeps(p, target, rounds[0]);
      RoundsRemove(Iterate(p, target, rounds[0]).0, target, rounds[1..]);
    }
  }

  /** Once the exit event is set, no wait blocks. */
  lemma {:induction false} ExitWakes(p: Pool, target: nat, rounds: seq<Round>)
    requires forall i | 0 <= i < |rounds| :: rounds[i].exit
    ensures AllWake(p, target, rounds)
    decreases |rounds|
  {
    if rounds != [] {
      ExitWakes(Iterate(p, target, rounds[0]).0, target, rounds[1..]);
    }
  }

  function DeadInList(p: Pool, before: set<nat>): set<nat> {
    set h | h in p.processes && h in before
  }

  /** Once the exit event is set, no wait blocks, and the loop ends within as many rounds as there
      are dead processes in the list, later deaths and failed waits, and one more. `before` are the
      processes that had died when the first of these rounds began. */
  lemma ShutdownBound(p: Pool, target: nat, rounds: seq<Round>, before: set<nat>)
    requires PoolInv(p, target) && target < WAIT_FAILED
    requires forall h | h in before :: h in p.created
    requires forall i | 0 <= i < |rounds| :: rounds[i].exit
    ensures AllWake(p, target, rounds)
    ensures !Supervise(p, target, rounds).1 ==>
              |rounds| <= |DeadInList(p, before)| + |Dead(rounds) - before| + FailedWaits(p, target, rounds)
  {
    ExitWakes(p, target, rounds);
    if !Supervise(p, target, rounds).1 {
      RoundsRemove(p, target, rounds);
      FewRemoved(p, target, rounds, before);
    }
  }

  /** What a run removes are dead processes of its list and later deaths, each once. */
  lemma FewRemoved(p: Pool, target: nat, rounds: seq<Round>, before: set<nat>)
    requires PoolInv(p, target) && AllWake(p, target, rounds) && target < WAIT_FAILED
    requires forall h | h in before :: h in p.created
    ensures |Supervise(p, target, rounds).0.removed| - |p.removed| <=
            |DeadInList(p, before)| + |Dead(rounds) - before|
  {
    RemovedWereSignalled(p, target, rounds);
    PoolAccounting(p, target, rounds);
    var p' := Supervise(p, target, rounds).0;
    var removed := p'.removed[|p.removed|..];
    RemovedAreDead(p, p', target, removed, before, Dead(rounds));
    DistinctWithin(removed, DeadInList(p, before) + (Dead(rounds) - before));
    DisjointSize(DeadInList(p, before), Dead(rounds) - before);
  }

  /** What was removed since `p` are different processes, each dead in the list at the start or
      a later death. */
  lemma RemovedAreDead(p: Pool, p': Pool, target: nat, removed: seq<nat>, before: set<nat>, deaths: set<nat>)
    requires PoolInv(p, target) && PoolInv(p', target)
    requires p'.removed == p.removed + removed && p.terminated <= p'.terminated
    requires forall h | h in before :: h in p.created
    requires forall i | |p.removed| <= i < |p'.removed| :: p'.removed[i] in deaths
    ensures Distinct(removed)
    ensures forall h | h in removed :: h in DeadInList(p, before) + (deaths - before)
  {
    PartOfDistinct(p'.created, p'.removed);
    DistinctTail(p.removed, removed);
    forall i | 0 <= i < |removed|
      ensures removed[i] in DeadInList(p, before) + (deaths - before)
    {
      assert p'.removed[|p.removed| + i] == removed[i];
      RemovedWasListed(p, p', target, removed, removed[i]);
    }
  }

  lemma DistinctTail(a: seq<nat>, b: seq<nat>)
    requires Distinct(a + b)
    ensures Distinct(b)
  {
    forall i, j | 0 <= i < j < |b|
      ensures b[i] != b[j]
    {
      assert (a + b)[|a| + i] == b[i] && (a + b)[|a| + j] == b[j];
    }
  }

  lemma DisjointSize(a: set<nat>, b: set<nat>)
    requires a !! b
    ensures |a + b| == |a| + |b|
  {
  }

  lemma RemovedWasListed(p: Pool, p': Pool, target: nat, removed: seq<nat>, h: nat)
    requires PoolInv(p, target) && PoolInv(p', target)
    requires p'.removed == p.removed + removed && p.terminated <= p'.terminated
    requires h in removed
    ensures h in p.created ==> h in p.processes
  {
    assert multiset(p'.removed) == multiset(p.removed) + multiset(removed);
    DistinctCounts(p'.created, h);
    assert p'.terminated == p.terminated + p'.terminated[|p.terminated|..];
    assert multiset(p'.removed)[h] >= 1;
    assert multiset(p.removed)[h] == 0 && multiset(p'.terminated)[h] == 0;
    assert multiset(p.terminated)[h] == 0;
    if h in p.created {
      assert multiset(p.created)[h] >= 1;
    }
  }

  lemma {:induction false} DistinctWithin(s: seq<nat>, all: set<nat>)
    requires Distinct(s) && forall h | h in s :: h in all
    ensures |s| <= |all|
  {
    if s != [] {
      DistinctWithin(s[1..], all - {s[0]});
    }
  }

  // ----- The class -----

  /** The operating system's side: what has been done to processes. */
  class System {
    const table: HandleTable
    var created: seq<nat>
    var terminated: seq<nat>
    var threads: set<nat>
    var joined: set<nat>
    var resumed: set<nat>

    constructor ()
      ensures fresh(table) && table.closed == []
      ensures created == [] && terminated == [] && threads == {} && joined == {} && resumed == {}
    {
      table := new HandleTable();
      created, terminated, threads, joined, resumed := [], [], {}, {}, {};
    }

    /** ::CreateProcess, AssignProcessToJobObject and ResumeThread, as the launch has it. */
    method Start(l: Launch)
      requires l.Created?
      modifies this
      ensures created == old(created) + [l.process] && threads == old(threads) + {l.thread}
      ensures joined == old(joined) + (if l.joined then {l.process} else {})
      ensures resumed == old(resumed) + (if l.resumed then {l.process} else {})
      ensures terminated == old(terminated)
    {
      created := created + [l.process];
      threads := threads + {l.thread};
      if l.joined {
        joined := joined + {l.process};
      }
      if l.resumed {
        resumed := resumed + {l.process};
      }
    }

    method Terminate(process: nat)
      modifies this`terminated
      ensures terminated == old(terminated) + [process]
    {
      terminated := terminated + [process];
    }
  }

  class Supervisor {
    const target: nat
    const system: System
    var processes: seq<ScopedHandle>
    ghost var removed: seq<nat>
    ghost var Repr: set<ScopedHandle>   // the slots that processes has used so far

    ghost predicate Valid()
      reads this
    {
      Distinct(processes) && forall s | s in processes :: s in Repr
    }

    ghost function Value(): Pool
      reads this, processes, system, system.table
    {
      Pool(Values(processes), system.created, removed, system.terminated,
           system.threads, system.joined, system.resumed, system.table.closed)
    }

    constructor (target: nat)
      ensures this.target == target && fresh(system) && fresh(system.table)
      ensures Valid() && fresh(Repr) && Value() == EMPTY
    {
      this.target := target;
      system := new System();
      processes := [];
      removed := [];
      Repr := {};
    }

    /** m_processes.push_back(std::move(process)) */
    method PushBack(process: ScopedHandle)
      requires Valid() && process !in processes
      modifies this`processes, this`Repr, process
      ensures Valid() && fresh(Repr - old(Repr))
      ensures Values(processes) == old(Values(processes)) + [old(process.value)]
      ensures process.value == INVALID && process !in processes
    {
      var slot := new ScopedHandle.Moved(process);
      assert slot !in processes;
      processes := processes + [slot];
      Repr := Repr + {slot};
    }

    /** ProcessPool::CreateProcess */
    method CreateProcess(l: Launch)
      requires Valid()
      modifies this`processes, this`Repr, system, system.table
      ensures Valid() && fresh(Repr - old(Repr))
      ensures Value() == Create(old(Value()), l)
    {
      if l.NotCreated? || !IsFresh(system.created, system.threads, l) {
        return;
      }
      system.Start(l);
      assert Value() == Begin(old(Value()), l);
      Settle(l);
    }

    /** A process that could not be put into the job or resumed is terminated, any other is listed. */
    method Settle(l: Launch)
      requires Valid() && l.Created? && l.process != INVALID && l.thread != INVALID
      modifies this`processes, this`Repr, system, system.table
      ensures Valid() && fresh(Repr - old(Repr))
      ensures Value() == Conclude(old(Value()), l)
    {
      var process := new ScopedHandle(l.process);
      var thread := new ScopedHandle(l.thread);
      if !l.joined || !l.resumed {
        system.Terminate(process.value);
      } else {
        PushBack(process);
      }
      Destroy(thread, process);
    }

    /** The local handles of CreateProcess go out of scope, the last one first. */
    method Destroy(thread: ScopedHandle, process: ScopedHandle)
      requires Valid() && thread !in processes && process !in processes && thread != process
      modifies thread, process, system.table
      ensures Values(processes) == old(Values(processes))
      ensures system.table.closed == old(system.table.closed)
                + (if old(thread.value) != INVALID then [old(thread.value)] else [])
                + (if old(process.value) != INVALID then [old(process.value)] else [])
    {
      thread.Release(system.table);
      process.Release(system.table);
    }

    /** The refill loop. */
    method RefillPool(launches: seq<Launch>)
      requires Valid()
      modifies this`processes, this`Repr, system, system.table
      ensures Valid() && fresh(Repr - old(Repr))
      ensures Value() == Refill(old(Value()), launches, Missing(old(Value()), target))
    {
      ghost var expected := Refill(Value(), launches, Missing(Value(), target));
      var rest := launches;
      var i := |processes|;
      while i < target
        invariant Valid() && fresh(Repr - old(Repr)) && removed == old(removed)
        invariant Refill(Value(), rest, if i < target then target - i else 0) == expected
      {
        CreateProcess(if rest == [] then NotCreated else rest[0]);
        rest := if rest == [] then [] else rest[1..];
        i := i + 1;
      }
    }

    /** m_processes.erase(...) */
    method EraseProcess(index: nat)
      requires Valid() && index < |processes| && Values(processes)[index] != INVALID
      modifies this`processes, this`removed, Repr, system.table
      ensures Valid() && Repr == old(Repr)
      ensures Value() == RemoveAt(old(Value()), index)
    {
      removed := removed + [Values(processes)[index]];
      processes := Erase(processes, index, system.table);
    }

    /** One pass through the body of ThreadMain's loop. */
    method Iteration(round: Round) returns (ended: bool)
      requires Valid() && target < WAIT_FAILED && PoolInv(Value(), target) && Wakes(Value(), target, round)
      modifies this, Repr, system, system.table
      ensures Valid() && fresh(Repr - old(Repr))
      ensures Iterate(old(Value()), target, round) == (Value(), ended)
    {
      RefillKeeps(Value(), target, round.launches, Missing(Value(), target));
      RefillPool(round.launches);

      var waitResult := Wait(Values(processes), round);
      if waitResult == |processes| {
        return true;
      }
      if waitResult < |processes| {
        assert Value().processes[waitResult] in Value().created;
        EraseProcess(waitResult);
      }
      return false;
    }

    /** ProcessPool::ThreadMain, observed for as many iterations as there are rounds. */
    method ThreadMain(rounds: seq<Round>) returns (ended: bool)
      requires Valid() && target < WAIT_FAILED && PoolInv(Value(), target) && AllWake(Value(), target, rounds)
      modifies this, Repr, system, system.table
      ensures Valid() && fresh(Repr - old(Repr))
      ensures Supervise(old(Value()), target, rounds) == (Value(), ended)
    {
      var k := 0;
      ghost var expected := Supervise(Value(), target, rounds);
      assert rounds[0..] == rounds;
      while k < |rounds|
        invariant k <= |rounds| && Valid() && PoolInv(Value(), target) && fresh(Repr - old(Repr))
        invariant AllWake(Value(), target, rounds[k..]) && Supervise(Value(), target, rounds[k..]) == expected
      {
        assert rounds[k..][1..] == rounds[k + 1..];
        IterateKeeps(Value(), target, rounds[k]);
        var exit := Iteration(rounds[k]);
        k := k + 1;
        if exit {
          return true;
        }
      }
      return false;
    }
  }
}
