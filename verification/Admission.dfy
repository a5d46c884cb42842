/** The admission protocol of the log (begin_op, end_op and the space bookkeeping of log_write in
    kernel/log.c), with sleep and wakeup of kernel/proc.c. Each section under log.lock is one
    step; `procs` is the process table as far as the log is concerned. */
module Admission {
  import LogDisk

  const MAXOPBLOCKS: nat := 10
  const LOGSIZE: nat := LogDisk.LOGSIZE

  /** InOp(spent): between begin_op and end_op, with `spent` blocks added to the log. Asleep: in
      sleep(&log, ..) inside begin_op. Woken: made runnable again, about to retry. */
  datatype Proc = Idle | Asleep | Woken | InOp(spent: nat) | InCommit

  /** `panicked` records that end_op found log.committing set. */
  datatype State = State(procs: seq<Proc>, outstanding: int, committing: bool, n: nat, panicked: bool)

  datatype Event = BeginOp(p: nat) | Append(p: nat) | EndOp(p: nat) | CommitDone(p: nat)

  function Wake(x: Proc): Proc {
    if x == Asleep then Woken else x
  }

  function WakeAll(procs: seq<Proc>): (r: seq<Proc>)
    ensures |r| == |procs| && forall i :: 0 <= i < |r| ==> r[i] == Wake(procs[i])
  {
    seq(|procs|, i requires 0 <= i < |procs| => Wake(procs[i]))
  }

  /** begin_op has to wait: a commit is under way, or this operation might overrun the log. */
  predicate MustWait(committing: bool, n: int, outstanding: int) {
    committing || n + (outstanding + 1) * MAXOPBLOCKS > LOGSIZE
  }

  predicate Blocked(s: State) { MustWait(s.committing, s.n, s.outstanding) }

  /** Which process may take which step; an operation adds at most MAXOPBLOCKS blocks. */
  predicate Enabled(s: State, e: Event) {
    !s.panicked && e.p < |s.procs| &&
    match e
    case BeginOp(p) => s.procs[p] == Idle || s.procs[p] == Woken
    case Append(p) => s.procs[p].InOp? && s.procs[p].spent < MAXOPBLOCKS
    case EndOp(p) => s.procs[p].InOp?
    case CommitDone(p) => s.procs[p] == InCommit
  }

  function Apply(s: State, e: Event): State
    requires Enabled(s, e)
  {
    match e
    case BeginOp(p) =>
      if Blocked(s) then s.(procs := s.procs[p := Asleep])
      else s.(procs := s.procs[p := InOp(0)], outstanding := s.outstanding + 1)
    case Append(p) => s.(procs := s.procs[p := InOp(s.procs[p].spent + 1)], n := s.n + 1)
    case EndOp(p) =>
      if s.committing then s.(outstanding := s.outstanding - 1, panicked := true)
      else if s.outstanding == 1 then s.(procs := s.procs[p := InCommit], outstanding := 0, committing := true)
      else s.(procs := WakeAll(s.procs[p := Idle]), outstanding := s.outstanding - 1)
    case CommitDone(p) => s.(procs := WakeAll(s.procs[p := Idle]), committing := false, n := 0)
  }

  // ---------------------------------------------------------------- sums over the process table

  function Ops(x: Proc): int { if x.InOp? then 1 else 0 }

  function Commits(x: Proc): int { if x.InCommit? then 1 else 0 }

  function Unspent(x: Proc): int { if x.InOp? then MAXOPBLOCKS - x.spent else 0 }

  function Sum(f: Proc -> int, procs: seq<Proc>): int {
    if procs == [] then 0 else Sum(f, procs[..|procs| - 1]) + f(procs[|procs| - 1])
  }

  lemma {:induction false} SumUpdate(f: Proc -> int, procs: seq<Proc>, p: nat, x: Proc)
    requires p < |procs|
    ensures Sum(f, procs[p := x]) == Sum(f, procs) - f(procs[p]) + f(x)
  {
    var m := |procs| - 1;
    if p == m {
      assert procs[p := x][..m] == procs[..m];
    } else {
      assert procs[p := x][..m] == procs[..m][p := x];
      SumUpdate(f, procs[..m], p, x);
    }
  }

  lemma {:induction false} SumWake(f: Proc -> int, procs: seq<Proc>)
    requires forall x :: f(Wake(x)) == f(x)
    ensures Sum(f, WakeAll(procs)) == Sum(f, procs)
  {
    if procs == [] {
    } else {
      var m := |procs| - 1;
      assert WakeAll(procs)[..m] == WakeAll(procs[..m]);
      SumWake(f, procs[..m]);
    }
  }

  lemma {:induction false} SumWitness(f: Proc -> int, procs: seq<Proc>) returns (p: nat)
    requires Sum(f, procs) > 0
    ensures p < |procs| && f(procs[p]) > 0
  {
    var m := |procs| - 1;
    if f(procs[m]) > 0 { p := m; } else { p := SumWitness(f, procs[..m]); }
  }

  lemma {:induction false} SumMember(f: Proc -> int, procs: seq<Proc>, p: nat)
    requires p < |procs| && forall x :: f(x) >= 0
    ensures Sum(f, procs) >= f(procs[p])
  {
    var m := |procs| - 1;
    if p < m { SumMember(f, procs[..m], p); } else { SumNonneg(f, procs[..m]); }
  }

  lemma {:induction false} SumNonneg(f: Proc -> int, procs: seq<Proc>)
    requires forall x :: f(x) >= 0
    ensures Sum(f, procs) >= 0
  {
    if procs == [] {
    } else {
      SumNonneg(f, procs[..|procs| - 1]);
    }
  }

  // ---------------------------------------------------------------- the invariant

  ghost predicate Inv(s: State) {
    && !s.panicked
    && (forall p :: 0 <= p < |s.procs| && s.procs[p].InOp? ==> s.procs[p].spent <= MAXOPBLOCKS)
    && s.outstanding == Sum(Ops, s.procs)
    && Sum(Commits, s.procs) == (if s.committing then 1 else 0)
    && (s.committing ==> s.outstanding == 0)
    && (s.outstanding == 0 && !s.committing ==> s.n == 0)
    && s.n + Sum(Unspent, s.procs) <= LOGSIZE
    && (forall p :: 0 <= p < |s.procs| && s.procs[p] == Asleep ==> Blocked(s))
  }

  lemma {:induction false} UnspentBound(procs: seq<Proc>)
    ensures Sum(Unspent, procs) <= MAXOPBLOCKS * Sum(Ops, procs)
  {
    if procs == [] {
    } else {
      UnspentBound(procs[..|procs| - 1]);
    }
  }

  /** How the sums change when process p becomes x, and that a wakeup does not change them. */
  lemma Sums(procs: seq<Proc>, p: nat, x: Proc)
    requires p < |procs|
    ensures Sum(Ops, procs[p := x]) == Sum(Ops, procs) - Ops(procs[p]) + Ops(x)
    ensures Sum(Commits, procs[p := x]) == Sum(Commits, procs) - Commits(procs[p]) + Commits(x)
    ensures Sum(Unspent, procs[p := x]) == Sum(Unspent, procs) - Unspent(procs[p]) + Unspent(x)
    ensures Sum(Ops, WakeAll(procs[p := x])) == Sum(Ops, procs[p := x])
    ensures Sum(Commits, WakeAll(procs[p := x])) == Sum(Commits, procs[p := x])
    ensures Sum(Unspent, WakeAll(procs[p := x])) == Sum(Unspent, procs[p := x])
    ensures Sum(Ops, procs) >= Ops(procs[p]) && Sum(Commits, procs) >= Commits(procs[p])
  {
    SumUpdate(Ops, procs, p, x);
    SumUpdate(Commits, procs, p, x);
    SumUpdate(Unspent, procs, p, x);
    SumWake(Ops, procs[p := x]);
    SumWake(Commits, procs[p := x]);
    SumWake(Unspent, procs[p := x]);
    SumMember(Ops, procs, p);
    SumMember(Commits, procs, p);
  }

  lemma BeginKeeps(s: State, p: nat)
    requires Inv(s) && Enabled(s, BeginOp(p))
    ensures Inv(Apply(s, BeginOp(p)))
  {
    if Blocked(s) {
      Sums(s.procs, p, Asleep);
    } else {
      Sums(s.procs, p, InOp(0));
      UnspentBound(s.procs);
    }
  }

  lemma EndKeeps(s: State, p: nat)
    requires Inv(s) && Enabled(s, EndOp(p))
    ensures Inv(Apply(s, EndOp(p)))
  {
    Sums(s.procs, p, if s.outstanding == 1 then InCommit else Idle);
  }

  /** Every step of every process keeps the invariant. */
  lemma StepKeeps(s: State, e: Event)
    requires Inv(s) && Enabled(s, e)
    ensures Inv(Apply(s, e))
  {
    var p := e.p;
    match e
    case BeginOp(_) => BeginKeeps(s, p);
    case Append(_) => Sums(s.procs, p, InOp(s.procs[p].spent + 1));
    case EndOp(_) => EndKeeps(s, p);
    case CommitDone(_) => Sums(s.procs, p, Idle);
  }

  // ---------------------------------------------------------------- whole runs

  ghost predicate Init(s: State) {
    && s.outstanding == 0 && !s.committing && s.n == 0 && !s.panicked
    && forall p :: 0 <= p < |s.procs| ==> s.procs[p] == Idle
  }

  ghost predicate Run(ss: seq<State>, es: seq<Event>) {
    && |ss| == |es| + 1 && Init(ss[0])
    && forall i :: 0 <= i < |es| ==> Enabled(ss[i], es[i]) && ss[i + 1] == Apply(ss[i], es[i])
  }

  lemma {:induction false} AllIdle(procs: seq<Proc>)
    requires forall p :: 0 <= p < |procs| ==> procs[p] == Idle
    ensures Sum(Ops, procs) == Sum(Commits, procs) == Sum(Unspent, procs) == 0
  {
    if procs == [] {
    } else {
      AllIdle(procs[..|procs| - 1]);
    }
  }

  lemma {:induction false} RunKeeps(ss: seq<State>, es: seq<Event>, k: nat)
    requires Run(ss, es) && k <= |es|
    ensures Inv(ss[k])
  {
    if k == 0 {
      AllIdle(ss[0].procs);
    } else {
      RunKeeps(ss, es, k - 1);
      StepKeeps(ss[k - 1], es[k - 1]);
      assert ss[k - 1 + 1] == Apply(ss[k - 1], es[k - 1]);
    }
  }

  /** Safety over every interleaving: end_op never panics, no operation runs during a commit, at most
      one process commits, and the log never exceeds LOGSIZE even if every running operation adds
      all the blocks it may still add. */
  lemma AdmissionSafe(ss: seq<State>, es: seq<Event>, k: nat, p: nat)
    requires Run(ss, es) && k <= |es| && p < |ss[k].procs|
    ensures var s := ss[k];
      && !s.panicked && (s.committing ==> s.outstanding == 0)
      && (s.procs[p].InOp? ==> !s.committing && s.outstanding >= 1)
      && (s.procs[p].InCommit? ==> s.committing && forall q :: 0 <= q < |s.procs| && s.procs[q].InCommit? ==> q == p)
      && s.n <= s.n + Sum(Unspent, s.procs) <= LOGSIZE
  {
    RunKeeps(ss, es, k);
    var s := ss[k];
    Sums(s.procs, p, Idle);
    UnspentNonneg(s.procs);
    forall q | 0 <= q < |s.procs| && s.procs[q].InCommit? && s.procs[p].InCommit? ensures q == p {
      if q != p {
        Sums(s.procs[p := Idle], q, Idle);
      }
    }
  }

  lemma {:induction false} UnspentNonneg(procs: seq<Proc>)
    requires forall p :: 0 <= p < |procs| && procs[p].InOp? ==> procs[p].spent <= MAXOPBLOCKS
    ensures Sum(Unspent, procs) >= 0
  {
    if procs == [] {
    } else {
      UnspentNonneg(procs[..|procs| - 1]);
    }
  }

  /** No lost wakeup: a process asleep in begin_op would still have to wait if it looked, and some
      process is in an operation or in a commit, whose end wakes it. */
  lemma NoLostWakeup(ss: seq<State>, es: seq<Event>, k: nat, p: nat) returns (q: nat)
    requires Run(ss, es) && k <= |es| && p < |ss[k].procs| && ss[k].procs[p] == Asleep
    ensures ss[k].committing || ss[k].n + (ss[k].outstanding + 1) * MAXOPBLOCKS > LOGSIZE
    ensures q < |ss[k].procs| && (ss[k].procs[q].InOp? || ss[k].procs[q].InCommit?)
  {
    RunKeeps(ss, es, k);
    var s := ss[k];
    SumNonneg(Ops, s.procs);
    if s.committing { q := SumWitness(Commits, s.procs); } else { q := SumWitness(Ops, s.procs); }
  }

  /** The test of log_write for a log of `size` blocks. */
  predicate TooBig(n: nat, size: nat) {
    n >= LOGSIZE || n >= size - 1
  }

  /** With the log size that mkfs writes (nlog == LOGSIZE), log_write refuses an operation within its
      budget exactly when one slot is left: admission counts LOGSIZE slots, but the header block
      takes one. */
  lemma BudgetRefused(s: State, p: nat)
    requires Inv(s) && Enabled(s, Append(p))
    ensures s.n < LOGSIZE && s.outstanding >= 1
    ensures TooBig(s.n, LOGSIZE) <==> s.n == LOGSIZE - 1
  {
    Sums(s.procs, p, InOp(s.procs[p].spent + 1));
    UnspentNonneg(s.procs[p := InOp(s.procs[p].spent + 1)]);
  }

  lemma {:induction false} AppendMany(ss: seq<State>, es: seq<Event>, p: nat, m: nat)
    returns (ss': seq<State>, es': seq<Event>)
    requires Run(ss, es) && var s := ss[|es|];
      p < |s.procs| && !s.panicked && s.procs[p].InOp? && s.procs[p].spent + m <= MAXOPBLOCKS
    ensures Run(ss', es')
    ensures var s := ss[|es|]; ss'[|es'|] == s.(n := s.n + m, procs := s.procs[p := InOp(s.procs[p].spent + m)])
  {
    ss', es' := ss, es;
    if m > 0 {
      ss', es' := AppendMany(ss, es, p, m - 1);
      ss', es' := ss' + [Apply(ss'[|es'|], Append(p))], es' + [Append(p)];
    }
  }

  /** The refusal is reachable: three operations adding 10, 10 and 9 blocks leave one slot. */
  lemma BudgetRefusedReachable() returns (ss: seq<State>, es: seq<Event>)
    ensures Run(ss, es) && var s := ss[|es|]; Enabled(s, Append(2)) && TooBig(s.n, LOGSIZE)
  {
    var s0 := State([Idle, Idle, Idle], 0, false, 0, false);
    var s1 := Apply(s0, BeginOp(0));
    var s2 := Apply(s1, BeginOp(1));
    var s3 := Apply(s2, BeginOp(2));
    ss, es := [s0, s1, s2, s3], [BeginOp(0), BeginOp(1), BeginOp(2)];
    assert s3.procs == [InOp(0), InOp(0), InOp(0)];
    ss, es := AppendMany(ss, es, 0, 10);
    ss, es := AppendMany(ss, es, 1, 10);
    ss, es := AppendMany(ss, es, 2, 9);
  }

  // ---------------------------------------------------------------- the code

  class LogLock {
    var procs: seq<Proc>
    var outstanding: int
    var committing: bool
    var n: nat
    var panicked: bool

    function Abs(): State
      reads this
    {
      State(procs, outstanding, committing, n, panicked)
    }

    constructor (nproc: nat)
      ensures Init(Abs()) && |procs| == nproc
    {
      procs := seq(nproc, _ => Idle);
      outstanding, committing, n, panicked := 0, false, 0, false;
    }

    /** wakeup(&log): the loop over the process table. */
    method Wakeup()
      modifies this`procs
      ensures procs == WakeAll(old(procs))
    {
      var p := 0;
      while p < |procs|
        invariant 0 <= p <= |procs| == |old(procs)|
        invariant forall i :: 0 <= i < |procs| ==> procs[i] == if i < p then Wake(old(procs)[i]) else old(procs)[i]
      {
        if procs[p] == Asleep { procs := procs[p := Woken]; }
        p := p + 1;
      }
    }

    /** One turn of the loop in begin_op: sleep, or enter the operation. */
    method BeginOp(p: nat)
      requires Enabled(Abs(), Event.BeginOp(p))
      modifies this
      ensures Abs() == Apply(old(Abs()), Event.BeginOp(p)) && |procs| == |old(procs)|
      ensures !old(committing) && old(n) + (old(outstanding) + 1) * MAXOPBLOCKS <= LOGSIZE ==>
        procs[p] == InOp(0) && outstanding == old(outstanding) + 1
      ensures old(committing) || old(n) + (old(outstanding) + 1) * MAXOPBLOCKS > LOGSIZE ==>
        procs[p] == Asleep && outstanding == old(outstanding)
    {
      if committing {
        procs := procs[p := Asleep];
      } else if n + (outstanding + 1) * MAXOPBLOCKS > LOGSIZE {
        procs := procs[p := Asleep];
      } else {
        outstanding := outstanding + 1;
        procs := procs[p := InOp(0)];
      }
    }

    /** The bookkeeping of log_write for a block that is not logged yet; the panic leaves all as it is. */
    method Append(p: nat, size: nat) returns (panic: bool)
      requires Enabled(Abs(), Event.Append(p))
      modifies this
      ensures panic <==> TooBig(old(n), size) || old(outstanding) < 1
      ensures Abs() == if panic then old(Abs()) else Apply(old(Abs()), Event.Append(p))
    {
      if n >= LOGSIZE || n >= size - 1 { return true; }
      if outstanding < 1 { return true; }
      n := n + 1;
      procs := procs[p := InOp(procs[p].spent + 1)];
      panic := false;
    }

    /** end_op up to its first release. */
    method EndOp(p: nat) returns (doCommit: bool)
      requires Enabled(Abs(), Event.EndOp(p))
      modifies this
      ensures Abs() == Apply(old(Abs()), Event.EndOp(p))
      ensures !panicked ==> doCommit == committing && (doCommit <==> old(outstanding) == 1)
      ensures panicked <==> old(committing)
    {
      doCommit := false;
      outstanding := outstanding - 1;
      if committing {
        panicked := true;
        return;
      }
      if outstanding == 0 {
        doCommit := true;
        committing := true;
        procs := procs[p := InCommit];
      } else {
        procs := procs[p := Idle];
        Wakeup();
      }
    }

    /** The end of end_op, after commit() emptied the log. */
    method CommitDone(p: nat)
      requires Enabled(Abs(), Event.CommitDone(p))
      modifies this
      ensures Abs() == Apply(old(Abs()), Event.CommitDone(p))
    {
      n := 0;
      committing := false;
      procs := procs[p := Idle];
      Wakeup();
    }
  }
}
