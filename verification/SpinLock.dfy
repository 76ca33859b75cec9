/** The recursive spin lock (include/hbatomic.h) as a state machine: any number of threads, every
    interleaving, each shared read or write a step of its own. `lock` and `thid` are read without
    holding the lock; the one atomic operation is test-and-set. */
module SpinLock {
  const REPEAT := 63
  const WORD := 0x1_0000_0000

  /** A thread id is never zero. */
  type Tid = t: int | t != 0 witness 1

  /** The operation in progress; `spin` is the countdown of a waiting acquire. */
  datatype Call = Try | Acquire(spin: int)

  /** The next shared access of a thread. `n` is the value of `count` it has read. */
  datatype Pc =
    | Idle
    | ReadLock(call: Call)
    | ReadOwner(call: Call)
    | TestAndSet(call: Call)
    | WriteOwner
    | WriteOne
    | ReadCount
    | WriteMore(n: int)
    | Yield
    | ReadForRelease
    | WriteLess(n: int)
    | ClearOwner
    | ClearLock

  /** `depth` is the number of acquires not yet released, `failed` the number of failed attempts
      since the last yield, `got` what the last finished try returned. No step depends on `failed`
      or `got`, and `depth` only keeps a thread from releasing what it does not hold. */
  datatype Thread = Thread(pc: Pc, depth: nat, failed: nat, got: bool)

  /** `owner` records which thread's test-and-set succeeded; no step depends on it. */
  datatype State = State(lock: bool, count: int, thid: int, threads: map<Tid, Thread>, owner: int)

  function Initial(ids: set<Tid>): State
  {
    State(false, 0, 0, map t | t in ids :: Thread(Idle, 0, 0, false), 0)
  }

  function Put(s: State, t: Tid, th: Thread): State
  {
    s.(threads := s.threads[t := th])
  }

  /** A failed attempt: try gives up, acquire counts down and tries again or yields. */
  function Failed(th: Thread, call: Call): Thread
  {
    match call
    case Try => th.(pc := Idle, got := false)
    case Acquire(spin) =>
      th.(pc := if spin - 1 == 0 then Yield else ReadLock(Acquire(spin - 1)), failed := th.failed + 1)
  }

  /** The next access of a thread that is inside an operation. */
  function Advance(s: State, t: Tid): (s': State)
    requires t in s.threads
    ensures s'.threads.Keys == s.threads.Keys
  {
    var th := s.threads[t];
    match th.pc
    case Idle => s
    case ReadLock(call) => Put(s, t, th.(pc := if s.lock then ReadOwner(call) else TestAndSet(call)))
    case ReadOwner(call) => Put(s, t, if s.thid == t then th.(pc := ReadCount) else Failed(th, call))
    case TestAndSet(call) =>
      if s.lock then Put(s, t, Failed(th, call))
      else Put(s, t, th.(pc := WriteOwner)).(lock := true, owner := t)
    case WriteOwner => Put(s, t, th.(pc := WriteOne)).(thid := t)
    case WriteOne => Put(s, t, th.(pc := Idle, depth := 1, got := true)).(count := 1)
    case ReadCount => Put(s, t, th.(pc := WriteMore(s.count)))
    case WriteMore(n) =>
      Put(s, t, th.(pc := Idle, depth := th.depth + 1, got := true)).(count := (n + 1) % WORD)
    case Yield => Put(s, t, th.(pc := ReadLock(Acquire(REPEAT)), failed := 0))
    case ReadForRelease => Put(s, t, th.(pc := WriteLess(s.count)))
    case WriteLess(n) =>
      var left := (n - 1) % WORD;
      Put(s, t, th.(pc := if left == 0 then ClearOwner else Idle,
                    depth := if th.depth > 0 then th.depth - 1 else 0)).(count := left)
    case ClearOwner => Put(s, t, th.(pc := ClearLock)).(thid := 0)
    case ClearLock => Put(s, t, th.(pc := Idle)).(lock := false, owner := 0)
  }

  /** An idle thread may start any operation, but releases only what it holds. */
  predicate Starts(th: Thread, th': Thread)
  {
    && th.pc.Idle?
    && (|| th' == th.(pc := ReadLock(Try))
        || th' == th.(pc := ReadLock(Acquire(REPEAT)), failed := 0)
        || (th.depth > 0 && th' == th.(pc := ReadForRelease)))
  }

  ghost predicate StepOf(s: State, t: Tid, s': State)
  {
    && t in s.threads
    && if s.threads[t].pc.Idle? then exists th' :: Starts(s.threads[t], th') && s' == Put(s, t, th')
       else s' == Advance(s, t)
  }

  ghost predicate Next(s: State, s': State)
  {
    exists t: Tid :: StepOf(s, t, s')
  }

  ghost predicate IsRun(run: seq<State>)
  {
    && run != []
    && (exists ids: set<Tid> :: run[0] == Initial(ids))
    && forall i :: 0 <= i < |run| - 1 ==> Next(run[i], run[i + 1])
  }

  /** No thread nests more acquires than the counter, modulo its width, can tell from one. */
  predicate Countable(s: State)
  {
    forall t :: t in s.threads ==> s.threads[t].depth <= WORD
  }

  // ----- the invariant -----

  predicate Taking(pc: Pc)
  {
    pc.WriteOwner? || pc.WriteOne?
  }

  predicate Leaving(pc: Pc)
  {
    pc.ClearOwner? || pc.ClearLock?
  }

  /** From its successful test-and-set to the clearing of the lock word. */
  predicate Owns(th: Thread)
  {
    th.depth > 0 || Taking(th.pc) || Leaving(th.pc)
  }

  predicate CallOk(th: Thread, call: Call)
  {
    call.Acquire? ==> 1 <= call.spin <= REPEAT && th.failed == REPEAT - call.spin
  }

  /** What a thread's position says about what it holds. */
  predicate PcOk(th: Thread)
  {
    match th.pc
    case Idle => true
    case ReadLock(call) => CallOk(th, call)
    case ReadOwner(call) => CallOk(th, call)
    case TestAndSet(call) => CallOk(th, call) && th.depth == 0
    case Yield => th.depth == 0 && th.failed == REPEAT
    case WriteOwner => th.depth == 0
    case WriteOne => th.depth == 0
    case ClearOwner => th.depth == 0
    case ClearLock => th.depth == 0
    case _ => th.depth > 0
  }

  /** The owner's view of the shared fields. */
  predicate FieldsOk(s: State, th: Thread)
  {
    && s.thid == (if th.pc.WriteOwner? || th.pc.ClearLock? then 0 else s.owner)
    && s.count == th.depth % WORD
    && (th.pc.WriteMore? || th.pc.WriteLess? ==> th.pc.n == s.count)
  }

  predicate Inv(s: State)
  {
    && s.lock == (s.owner != 0)
    && (if s.owner == 0 then s.thid == 0 && s.count == 0
        else s.owner in s.threads && FieldsOk(s, s.threads[s.owner]))
    && forall t :: t in s.threads ==> PcOk(s.threads[t]) && (Owns(s.threads[t]) <==> s.owner == t)
  }

  lemma InitialOk(ids: set<Tid>)
    ensures Inv(Initial(ids))
  {
  }

  /** Only the thread that moves changes; the others keep what they own. */
  lemma PutOk(s: State, t: Tid, th: Thread, lock: bool, count: int, thid: int, owner: int)
    requires Inv(s) && t in s.threads
    requires lock == (owner != 0) && (owner == 0 ==> thid == 0 && count == 0)
    requires owner == t || (owner == 0 && s.owner == t) || (owner == s.owner && s.owner != t)
    requires s.owner == 0 || s.owner == t || (lock == s.lock && count == s.count && thid == s.thid)
    requires PcOk(th) && (Owns(th) <==> owner == t)
    requires owner == t ==>
      && thid == (if th.pc.WriteOwner? || th.pc.ClearLock? then 0 else t) && count == th.depth % WORD
      && (th.pc.WriteMore? || th.pc.WriteLess? ==> th.pc.n == count)
      && (s.owner == 0 || s.owner == t)
    ensures Inv(State(lock, count, thid, s.threads[t := th], owner))
  {
  }

  lemma StartKeeps(s: State, t: Tid, th': Thread)
    requires Inv(s) && t in s.threads && Starts(s.threads[t], th')
    ensures Inv(Put(s, t, th'))
  {
    PutOk(s, t, th', s.lock, s.count, s.thid, s.owner);
  }

  lemma CountUp(d: nat)
    ensures (d % WORD + 1) % WORD == (d + 1) % WORD
  {
  }

  lemma CountDown(d: nat)
    requires 1 <= d <= WORD
    ensures (d % WORD - 1) % WORD == (d - 1) % WORD
    ensures (d - 1) % WORD == 0 <==> d == 1
  {
  }

  lemma CountKeeps(s: State, t: Tid)
    requires Inv(s) && Countable(s) && t in s.threads
    requires s.threads[t].pc.WriteMore? || s.threads[t].pc.WriteLess?
    ensures Inv(Advance(s, t))
  {
    var th, s' := s.threads[t], Advance(s, t);
    if th.pc.WriteMore? {
      CountUp(th.depth);
    } else {
      CountDown(th.depth);
    }
    PutOk(s, t, s'.threads[t], s'.lock, s'.count, s'.thid, s'.owner);
  }

  /** The accesses of a thread that does not own the lock. */
  lemma OutsideKeeps(s: State, t: Tid)
    requires Inv(s) && t in s.threads
    requires var pc := s.threads[t].pc; pc.ReadLock? || pc.ReadOwner? || pc.TestAndSet? || pc.Yield?
    ensures Inv(Advance(s, t))
  {
    var s' := Advance(s, t);
    PutOk(s, t, s'.threads[t], s'.lock, s'.count, s'.thid, s'.owner);
  }

  /** The other accesses of the owner. */
  lemma InsideKeeps(s: State, t: Tid)
    requires Inv(s) && t in s.threads
    requires var pc := s.threads[t].pc; Taking(pc) || Leaving(pc) || pc.ReadCount? || pc.ReadForRelease?
    ensures Inv(Advance(s, t))
  {
    var s' := Advance(s, t);
    PutOk(s, t, s'.threads[t], s'.lock, s'.count, s'.thid, s'.owner);
  }

  lemma AdvanceKeeps(s: State, t: Tid)
    requires Inv(s) && Countable(s) && t in s.threads && !s.threads[t].pc.Idle?
    ensures Inv(Advance(s, t))
  {
    hide Inv, Advance;
    var pc := s.threads[t].pc;
    if pc.WriteMore? || pc.WriteLess? {
      CountKeeps(s, t);
    } else if Taking(pc) || Leaving(pc) || pc.ReadCount? || pc.ReadForRelease? {
      InsideKeeps(s, t);
    } else {
      OutsideKeeps(s, t);
    }
  }

  lemma StepKeeps(s: State, s': State)
    requires Inv(s) && Countable(s) && Next(s, s')
    ensures Inv(s')
  {
    var t: Tid :| StepOf(s, t, s');
    if s.threads[t].pc.Idle? {
      var th' :| Starts(s.threads[t], th') && s' == Put(s, t, th');
      StartKeeps(s, t, th');
    } else {
      AdvanceKeeps(s, t);
    }
  }

  /** The invariant holds in every state of every run. */
  lemma {:induction false} RunKeeps(run: seq<State>, k: nat)
    requires IsRun(run) && k < |run| && forall i :: 0 <= i < k ==> Countable(run[i])
    ensures Inv(run[k])
  {
    if k == 0 {
      var ids: set<Tid> :| run[0] == Initial(ids);
      InitialOk(ids);
    } else {
      RunKeeps(run, k - 1);
      assert Next(run[k - 1], run[k - 1 + 1]);
      StepKeeps(run[k - 1], run[k]);
    }
  }

  // ----- what follows -----

  /** Mutual exclusion: between a successful acquire or try and the end of the outermost release
      there is at most one thread. */
  lemma MutualExclusion(run: seq<State>, k: nat, t: Tid, u: Tid)
    requires IsRun(run) && k < |run| && forall i :: 0 <= i < k ==> Countable(run[i])
    requires t in run[k].threads && u in run[k].threads
    requires Owns(run[k].threads[t]) && Owns(run[k].threads[u])
    ensures t == u
  {
    RunKeeps(run, k);
  }

  /** A thread that reads its own id in `thid`, without holding the lock as far as the reader can
      know, does own it; and between operations the fields say exactly what the owner holds. */
  lemma FieldsTell(run: seq<State>, k: nat, t: Tid)
    requires IsRun(run) && k < |run| && forall i :: 0 <= i < k ==> Countable(run[i])
    requires t in run[k].threads
    ensures run[k].thid == t ==> Owns(run[k].threads[t]) && run[k].lock
    ensures run[k].threads[t].depth > 0 ==> run[k].thid == t && run[k].lock && run[k].count == run[k].threads[t].depth % WORD
    ensures run[k].lock <==> exists u :: u in run[k].threads && Owns(run[k].threads[u])
  {
    RunKeeps(run, k);
    if run[k].lock {
      var o: Tid := run[k].owner;
      assert o in run[k].threads && Owns(run[k].threads[o]);
    }
  }

  /** The lock word is cleared only when nobody is left inside, and a release goes on to clear it
      exactly when it is the outermost one. */
  lemma ClearedByOutermost(run: seq<State>, k: nat, t: Tid)
    requires IsRun(run) && k < |run| && forall i :: 0 <= i <= k ==> Countable(run[i])
    requires t in run[k].threads && !run[k].threads[t].pc.Idle?
    ensures var s, s' := run[k], Advance(run[k], t);
      s.lock && !s'.lock ==> s.threads[t].pc.ClearLock? && forall u :: u in s.threads ==> s.threads[u].depth == 0
    ensures var s, s' := run[k], Advance(run[k], t);
      s.threads[t].pc.WriteLess? ==> (s'.threads[t].pc.ClearOwner? <==> s.threads[t].depth == 1)
  {
    RunKeeps(run, k);
  }

  /** try and acquire return 1 exactly when the caller owns the lock on return; in particular they
      never refuse the owner. */
  lemma AnswerIsOwnership(run: seq<State>, k: nat, t: Tid)
    requires IsRun(run) && k < |run| && forall i :: 0 <= i <= k ==> Countable(run[i])
    requires t in run[k].threads
    requires var pc := run[k].threads[t].pc; pc.ReadOwner? || pc.TestAndSet? || pc.WriteOne? || pc.WriteMore?
    requires Advance(run[k], t).threads[t].pc.Idle?
    ensures var th := Advance(run[k], t).threads[t]; th.got <==> th.depth > 0
    ensures var th := Advance(run[k], t).threads[t]; th.got ==> th.depth == run[k].threads[t].depth + 1
    ensures run[k].threads[t].pc.ReadOwner? && run[k].threads[t].depth > 0 ==> Advance(run[k], t).threads[t].pc.ReadCount?
  {
    RunKeeps(run, k);
  }

  /** The countdown stays between 1 and 63 and a waiting thread yields after 63 failures. */
  lemma WaiterYields(run: seq<State>, k: nat, t: Tid)
    requires IsRun(run) && k < |run| && forall i :: 0 <= i < k ==> Countable(run[i])
    requires t in run[k].threads
    ensures var th := run[k].threads[t];
      && (th.pc.ReadLock? || th.pc.ReadOwner? || th.pc.TestAndSet? ==>
            th.pc.call.Acquire? ==> 1 <= th.pc.call.spin <= REPEAT && th.failed == REPEAT - th.pc.call.spin)
      && (th.pc.Yield? ==> th.failed == REPEAT)
  {
    RunKeeps(run, k);
  }

  // ----- an acquire returns with the lock -----

  /** Inside an acquire, from its first read to its last write. */
  predicate Acquiring(pc: Pc)
  {
    || ((pc.ReadLock? || pc.ReadOwner? || pc.TestAndSet?) && pc.call.Acquire?)
    || pc.Yield? || pc.WriteOwner? || pc.WriteOne? || pc.ReadCount? || pc.WriteMore?
  }

  lemma OwnStep(s: State, t: Tid)
    requires t in s.threads && PcOk(s.threads[t]) && Acquiring(s.threads[t].pc)
    ensures var th, th' := s.threads[t], Advance(s, t).threads[t];
      || (Acquiring(th'.pc) && th'.depth == th.depth)
      || (th'.pc.Idle? && th'.depth == th.depth + 1 && th'.got)
  {
  }

  lemma OthersStep(s: State, u: Tid, s': State, t: Tid)
    requires StepOf(s, u, s') && u != t && t in s.threads
    ensures t in s'.threads && s'.threads[t] == s.threads[t]
  {
    if s.threads[u].pc.Idle? {
      var th' :| Starts(s.threads[u], th') && s' == Put(s, u, th');
    }
  }

  /** No step of another thread touches this one, and none of its own takes it out of an acquire without
      the lock. */
  lemma AcquireGoesOn(s: State, s': State, t: Tid)
    requires Inv(s) && Next(s, s') && t in s.threads && Acquiring(s.threads[t].pc)
    ensures t in s'.threads
    ensures var th, th' := s.threads[t], s'.threads[t];
      || (Acquiring(th'.pc) && th'.depth == th.depth)
      || (th'.pc.Idle? && th'.depth == th.depth + 1 && th'.got)
  {
    hide Advance, PcOk, Starts;
    var u: Tid :| StepOf(s, u, s');
    if u == t {
      OwnStep(s, t);
    } else {
      OthersStep(s, u, s', t);
    }
  }

  /** An acquire that was started has either not returned, or it has taken the lock once more than its
      thread held it: in every run, however often it fails and yields. */
  lemma {:induction false} AcquireTakes(run: seq<State>, i: nat, j: nat, t: Tid)
    requires IsRun(run) && i < j < |run| && forall k :: 0 <= k < j ==> Countable(run[k])
    requires t in run[i].threads && run[i].threads[t].pc == ReadLock(Acquire(REPEAT))
    requires forall k :: i < k < j && t in run[k].threads ==> !run[k].threads[t].pc.Idle?
    ensures t in run[j].threads
    ensures var th, th' := run[i].threads[t], run[j].threads[t];
      if th'.pc.Idle? then th'.depth == th.depth + 1 && th'.got else Acquiring(th'.pc) && th'.depth == th.depth
    decreases j
  {
    hide Inv, Next;
    assert Next(run[j - 1], run[j - 1 + 1]);
    RunKeeps(run, j - 1);
    if i < j - 1 {
      AcquireTakes(run, i, j - 1, t);
    }
    AcquireGoesOn(run[j - 1], run[j], t);
  }

  // ----- waiting -----

  /** A failed attempt of an acquire is followed by the next one; the 63rd is followed by a yield, and
      the yield by 63 more. Nothing else changes. */
  lemma FailedAttempt(s: State, t: Tid)
    requires t in s.threads
    ensures var th := s.threads[t];
      (th.pc.ReadOwner? && s.thid != t) || (th.pc.TestAndSet? && s.lock) ==>
        && (th.pc.call.Try? ==> Advance(s, t) == Put(s, t, th.(pc := Idle, got := false)))
        && (th.pc.call.Acquire? ==>
              && Advance(s, t) == Put(s, t, Advance(s, t).threads[t])
              && Advance(s, t).threads[t].pc ==
                   (if th.pc.call.spin == 1 then Yield else ReadLock(Acquire(th.pc.call.spin - 1)))
              && Advance(s, t).threads[t].depth == th.depth)
    ensures s.threads[t].pc.Yield? ==>
      Advance(s, t) == Put(s, t, s.threads[t].(pc := ReadLock(Acquire(63)), failed := 0))
  {
  }

  /** `n` steps of one thread, the others standing still. */
  function Alone(s: State, t: Tid, n: nat): (s': State)
    requires t in s.threads
    ensures t in s'.threads
  {
    if n == 0 then s else Advance(Alone(s, t, n - 1), t)
  }

  lemma AloneOn(s: State, t: Tid, n: nat)
    requires t in s.threads
    ensures Alone(s, t, n + 1) == Advance(Alone(s, t, n), t)
    ensures Alone(s, t, n + 2) == Advance(Advance(Alone(s, t, n), t), t)
  {
    hide Advance;
  }

  /** While another thread keeps the lock, an attempt takes two steps. */
  lemma {:induction false} AttemptsFail(s: State, t: Tid, n: nat)
    requires t in s.threads && s.lock && s.thid != t && s.threads[t].pc == ReadLock(Acquire(63)) && n < 63
    ensures Alone(s, t, 2 * n) ==
      Put(s, t, s.threads[t].(pc := ReadLock(Acquire(63 - n)), failed := s.threads[t].failed + n))
  {
    hide Advance, Alone;
    var was := s.threads[t];
    if n == 0 {
      Unmoved(s, t);
    } else {
      AttemptsFail(s, t, n - 1);
      OneAttempt(s, t, was.(pc := ReadLock(Acquire(64 - n)), failed := was.failed + n - 1));
      AloneOn(s, t, 2 * n - 2);
    }
  }

  lemma Unmoved(s: State, t: Tid)
    requires t in s.threads
    ensures Put(s, t, s.threads[t]) == s == Alone(s, t, 0)
  {
    assert s.threads[t := s.threads[t]] == s.threads;
  }

  lemma OneAttempt(s: State, t: Tid, th: Thread)
    requires t in s.threads && s.lock && s.thid != t && th.pc.ReadLock? && th.pc.call.Acquire?
    ensures Advance(Advance(Put(s, t, th), t), t) ==
      Put(s, t, th.(pc := if th.pc.call.spin == 1 then Yield else ReadLock(Acquire(th.pc.call.spin - 1)),
                    failed := th.failed + 1))
  {
    ReadsOwner(s, t, th);
  }

  /** So an acquire that finds the lock taken makes 63 attempts of two steps, yields, and begins again. */
  lemma RoundOfWaiting(s: State, t: Tid, round: nat)
    requires t in s.threads && s.lock && s.thid != t && s.threads[t].pc == ReadLock(Acquire(63))
    requires round == 2 * 63
    ensures Alone(s, t, round) == Put(s, t, s.threads[t].(pc := Yield, failed := s.threads[t].failed + 63))
    ensures Alone(s, t, round + 1) == Put(s, t, s.threads[t].(pc := ReadLock(Acquire(63)), failed := 0))
  {
    hide Advance, Alone;
    AttemptsFail(s, t, 62);
    OneAttempt(s, t, s.threads[t].(pc := ReadLock(Acquire(1)), failed := s.threads[t].failed + 62));
    AloneOn(s, t, round - 2);
    AloneOn(s, t, round);
    FailedAttempt(Alone(s, t, round), t);
  }

  // ----- one nested acquire too many -----

  /** The steps of a nested acquire, and of a release that turns out to be the last, taken by one
      thread with nobody in between. */
  function AcquireAgain(s: State, t: Tid): State
    requires t in s.threads
  {
    Advance(Advance(Advance(Advance(Put(s, t, s.threads[t].(pc := ReadLock(Try))), t), t), t), t)
  }

  function ReleaseFully(s: State, t: Tid): State
    requires t in s.threads
  {
    Advance(Advance(Advance(Advance(Put(s, t, s.threads[t].(pc := ReadForRelease)), t), t), t), t)
  }

  lemma AgainTakes(s: State, t: Tid)
    requires Inv(s) && t in s.threads && s.threads[t].pc.Idle? && s.threads[t].depth == WORD
    ensures AcquireAgain(s, t) == Put(s, t, s.threads[t].(depth := WORD + 1, got := true)).(count := 1)
  {
    var a1 := Advance(Put(s, t, s.threads[t].(pc := ReadLock(Try))), t);
    assert a1 == Put(s, t, s.threads[t].(pc := ReadOwner(Try)));
    var a2 := Advance(a1, t);
    assert a2 == Put(s, t, s.threads[t].(pc := ReadCount));
    var a3 := Advance(a2, t);
    assert a3 == Put(s, t, s.threads[t].(pc := WriteMore(0)));
  }

  lemma ReleaseFrees(s: State, t: Tid)
    requires t in s.threads && s.threads[t].pc.Idle? && s.threads[t].depth > 0 && s.count == 1
    ensures var end := ReleaseFully(s, t);
      !end.lock && end.threads[t].pc.Idle? && end.threads[t].depth == s.threads[t].depth - 1
  {
    var b1 := Advance(Put(s, t, s.threads[t].(pc := ReadForRelease)), t);
    assert b1 == Put(s, t, s.threads[t].(pc := WriteLess(1)));
    var b2 := Advance(b1, t);
    assert b2.threads[t].pc == ClearOwner;
    var b3 := Advance(b2, t);
    assert b3.threads[t].pc == ClearLock;
  }

  /** The bound is exact: a thread that holds the lock 2^32 times and acquires it once more frees
      it with the next release, while it still holds it 2^32 times. */
  lemma OneTooMany(s: State, t: Tid)
    requires Inv(s) && t in s.threads && s.threads[t].pc.Idle? && s.threads[t].depth == WORD
    ensures AcquireAgain(s, t).threads[t].depth == WORD + 1 && AcquireAgain(s, t).threads[t].got
    ensures var end := ReleaseFully(AcquireAgain(s, t), t);
      !end.lock && end.threads[t].pc.Idle? && end.threads[t].depth == WORD
  {
    hide Inv, Advance, AcquireAgain, ReleaseFully;
    AgainTakes(s, t);
    ReleaseFrees(AcquireAgain(s, t), t);
  }

  /** Exactly when a release goes on to free the lock: when the depth is one modulo the width of the
      counter. */
  lemma ReleaseClears(s: State, t: Tid)
    requires Inv(s) && t in s.threads && s.threads[t].pc.WriteLess?
    ensures Advance(s, t).threads[t].pc.ClearOwner? <==> s.threads[t].depth % WORD == 1
  {
    var n := s.threads[t].pc.n;
    assert n == s.threads[t].depth % WORD;
    assert (n - 1) % WORD == if n == 0 then WORD - 1 else n - 1;
  }

  // ----- and it can be reached -----

  ghost predicate Reachable(s: State)
  {
    exists run :: IsRun(run) && run[|run| - 1] == s
  }

  lemma Onward(s: State, s': State)
    requires Reachable(s) && Next(s, s')
    ensures Reachable(s')
  {
    hide Next;
    var run :| IsRun(run) && run[|run| - 1] == s;
    var longer := run + [s'];
    forall i | 0 <= i < |longer| - 1
      ensures Next(longer[i], longer[i + 1])
    {
      if i < |run| - 1 {
        assert Next(run[i], run[i + 1]);
      }
    }
    var ids: set<Tid> :| run[0] == Initial(ids);
    assert longer[0] == Initial(ids);
    assert IsRun(longer) && longer[|longer| - 1] == s';
  }

  lemma StartReached(s: State, t: Tid, th: Thread)
    requires Reachable(s) && t in s.threads && Starts(s.threads[t], th)
    ensures Reachable(Put(s, t, th))
  {
    hide Reachable;
    assert StepOf(s, t, Put(s, t, th));
    Onward(s, Put(s, t, th));
  }

  lemma AdvanceReached(s: State, t: Tid, s': State)
    requires Reachable(s) && t in s.threads && !s.threads[t].pc.Idle? && s' == Advance(s, t)
    ensures Reachable(s')
  {
    hide Reachable, Advance;
    assert StepOf(s, t, s');
    Onward(s, s');
  }

  /** One thread has acquired the lock `d` times, all others are idle. */
  function Holding(ids: set<Tid>, t: Tid, d: nat): State
  {
    State(d > 0, d % WORD, if d > 0 then t else 0,
          map u | u in ids :: Thread(Idle, if u == t then d else 0, 0, u == t && d > 0),
          if d > 0 then t else 0)
  }

  /** Any depth is reached. */
  lemma {:induction false} HoldingReached(ids: set<Tid>, t: Tid, d: nat)
    requires t in ids
    ensures Reachable(Holding(ids, t, d))
  {
    if d == 0 {
      assert Holding(ids, t, 0).threads == Initial(ids).threads;
      assert IsRun([Initial(ids)]) && [Initial(ids)][0] == Holding(ids, t, 0);
    } else {
      HoldingReached(ids, t, d - 1);
      hide Reachable, Advance;
      var s := Holding(ids, t, d - 1);
      var th := s.threads[t];
      StartReached(s, t, th.(pc := ReadLock(Acquire(REPEAT)), failed := 0));
      var last: State;
      if d == 1 {
        last := FirstTime(s, t, Acquire(REPEAT));
      } else {
        last := NestedTime(s, t, Acquire(REPEAT));
        CountUp(d - 1);
      }
      assert last.threads == Holding(ids, t, d).threads;
    }
  }

  /** Up to 2^32 nested acquires the invariant is kept, so none of the results about runs is empty. */
  lemma CountableWhile(ids: set<Tid>, t: Tid, d: nat)
    requires t in ids
    ensures Countable(Holding(ids, t, d)) <==> d <= WORD
  {
    assert Holding(ids, t, d).threads[t].depth == d;
  }

  /** So the release of a thread that has acquired the lock `d` times goes on to free it if and only if
      `d` is one modulo the width of the counter: the invariant holds at every depth. */
  lemma ReleaseOfHolding(ids: set<Tid>, t: Tid, d: nat)
    requires t in ids && d > 0
    ensures Inv(Holding(ids, t, d)) && Reachable(Holding(ids, t, d))
    ensures var s := Holding(ids, t, d);
      var s1 := Advance(Put(s, t, s.threads[t].(pc := ReadForRelease)), t);
      s1.threads[t].pc.WriteLess? && (Advance(s1, t).threads[t].pc.ClearOwner? <==> d % WORD == 1)
  {
    hide Reachable, Advance;
    HoldingReached(ids, t, d);
    var s := Holding(ids, t, d);
    var s0 := Put(s, t, s.threads[t].(pc := ReadForRelease));
    StartKeeps(s, t, s0.threads[t]);
    ReadsCount(s0, t);
    InsideKeeps(s0, t);
    ReleaseClears(Advance(s0, t), t);
  }

  lemma ReadsCount(s: State, t: Tid)
    requires t in s.threads && s.threads[t].pc.ReadForRelease?
    ensures Advance(s, t) == Put(s, t, s.threads[t].(pc := WriteLess(s.count)))
  {
  }

  /** The four accesses of an acquire that finds the lock free, and of one that is nested. */
  lemma FirstTime(s: State, t: Tid, call: Call) returns (end: State)
    requires t in s.threads && !s.lock && s.threads[t].pc.Idle?
    requires Reachable(Put(s, t, s.threads[t].(pc := ReadLock(call))))
    ensures Reachable(end)
    ensures end == State(true, 1, t, s.threads[t := s.threads[t].(depth := 1, got := true)], t)
  {
    hide Reachable;
    var th := s.threads[t];
    var s1 := Put(s, t, th.(pc := TestAndSet(call)));
    AdvanceReached(Put(s, t, th.(pc := ReadLock(call))), t, s1);
    var s2 := Put(s, t, th.(pc := WriteOwner)).(lock := true, owner := t);
    AdvanceReached(s1, t, s2);
    var s3 := Put(s, t, th.(pc := WriteOne)).(lock := true, owner := t, thid := t);
    AdvanceReached(s2, t, s3);
    end := State(true, 1, t, s.threads[t := th.(depth := 1, got := true)], t);
    AdvanceReached(s3, t, end);
  }

  lemma NestedTime(s: State, t: Tid, call: Call) returns (end: State)
    requires t in s.threads && s.lock && s.thid == t && s.threads[t].pc.Idle?
    requires Reachable(Put(s, t, s.threads[t].(pc := ReadLock(call))))
    ensures Reachable(end)
    ensures end == Put(s, t, s.threads[t].(depth := s.threads[t].depth + 1, got := true)).(count := (s.count + 1) % WORD)
  {
    hide Reachable;
    var th := s.threads[t];
    var s1 := Put(s, t, th.(pc := ReadOwner(call)));
    AdvanceReached(Put(s, t, th.(pc := ReadLock(call))), t, s1);
    var s2 := Put(s, t, th.(pc := ReadCount));
    AdvanceReached(s1, t, s2);
    var s3 := Put(s, t, th.(pc := WriteMore(s.count)));
    AdvanceReached(s2, t, s3);
    end := Put(s, t, th.(depth := th.depth + 1, got := true)).(count := (s.count + 1) % WORD);
    AdvanceReached(s3, t, end);
  }

  /** The release of a thread whose counter says one: the lock is free, whatever the thread holds. */
  lemma LastTime(s: State, t: Tid) returns (end: State)
    requires Reachable(s) && t in s.threads && s.count == 1 && s.threads[t].pc.Idle? && s.threads[t].depth > 0
    ensures Reachable(end)
    ensures end == State(false, 0, 0, s.threads[t := s.threads[t].(depth := s.threads[t].depth - 1)], 0)
  {
    hide Reachable;
    var th := s.threads[t];
    var less := th.(depth := th.depth - 1);
    var s0 := Put(s, t, th.(pc := ReadForRelease));
    StartReached(s, t, th.(pc := ReadForRelease));
    var s1 := Put(s, t, th.(pc := WriteLess(1)));
    AdvanceReached(s0, t, s1);
    var s2 := Put(s, t, less.(pc := ClearOwner)).(count := 0);
    AdvanceReached(s1, t, s2);
    var s3 := Put(s, t, less.(pc := ClearLock)).(count := 0, thid := 0);
    AdvanceReached(s2, t, s3);
    end := State(false, 0, 0, s.threads[t := less], 0);
    AdvanceReached(s3, t, end);
  }

  /** While one thread holds the lock, another comes to the point of yielding. */
  lemma YieldReached(ids: set<Tid>, t: Tid, d: nat, u: Tid)
    requires t in ids && u in ids && t != u && d > 0
    ensures var s := Holding(ids, t, d); Reachable(Put(s, u, s.threads[u].(pc := Yield, failed := 63)))
  {
    hide Reachable, Advance;
    HoldingReached(ids, t, d);
    var s := Holding(ids, t, d);
    assert s.lock && s.thid == t && u in s.threads && s.threads[u] == Thread(Idle, 0, 0, false);
    var th := s.threads[u].(pc := ReadLock(Acquire(63)), failed := 0);
    StartReached(s, u, th);
    WaitingReached(Put(s, u, th), u, 63);
    var last := th.(pc := Yield, failed := 63);
    assert s.threads[u := th][u := last] == s.threads[u := last];
  }

  lemma {:induction false} WaitingReached(s: State, t: Tid, n: nat)
    requires Reachable(s) && t in s.threads && s.lock && s.thid != t
    requires s.threads[t].pc == ReadLock(Acquire(63)) && n <= 63
    ensures var th := s.threads[t];
      Reachable(Put(s, t, th.(pc := if n == 63 then Yield else ReadLock(Acquire(63 - n)), failed := th.failed + n)))
  {
    hide Reachable, Advance;
    var th := s.threads[t];
    if n == 0 {
      Unmoved(s, t);
    } else {
      WaitingReached(s, t, n - 1);
      var was := th.(pc := ReadLock(Acquire(64 - n)), failed := th.failed + n - 1);
      OneAttempt(s, t, was);
      ReadsOwner(s, t, was);
      AdvanceReached(Put(s, t, was), t, Put(s, t, was.(pc := ReadOwner(was.pc.call))));
      AdvanceReached(Put(s, t, was.(pc := ReadOwner(was.pc.call))), t, Advance(Advance(Put(s, t, was), t), t));
    }
  }

  lemma ReadsOwner(s: State, t: Tid, th: Thread)
    requires t in s.threads && s.lock && th.pc.ReadLock?
    ensures Advance(Put(s, t, th), t) == Put(s, t, th.(pc := ReadOwner(th.pc.call)))
  {
  }

  /** Without the bound on nesting there is a run, from the initial state, in which two threads are
      inside at once: the first acquires the lock 2^32 + 1 times and releases it once, and the second
      gets in while the first still holds it 2^32 times. */
  lemma TwoInside(t: Tid, u: Tid)
    requires t != u
    ensures exists run: seq<State> ::
      && IsRun(run)
      && var end := run[|run| - 1];
         && t in end.threads && u in end.threads && Owns(end.threads[t]) && Owns(end.threads[u])
         && end.threads[t].depth == 0x1_0000_0000 && end.threads[u].depth == 1 && end.threads[u].got
  {
    hide Advance;
    var ids := {t, u};
    HoldingReached(ids, t, WORD + 1);
    var freed := LastTime(Holding(ids, t, WORD + 1), t);
    StartReached(freed, u, freed.threads[u].(pc := ReadLock(Try)));
    var end := FirstTime(freed, u, Try);
    var run :| IsRun(run) && run[|run| - 1] == end;
  }
}
