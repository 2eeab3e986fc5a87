// The idle-worker sweep, as pure functions over the idle list (oldest first): the
// entries of finished jobs that must be force-exited, then the capacity pass that
// exits the oldest entries past their keep-alive until only as many killable
// entries as the soft limit remain.
module IdleKilling {
  import opened WorkerTypes

  /// An idle entry is past its keep-alive at time `now` (strictly: an entry whose keep-alive
  /// ends exactly now is still protected).
  predicate Killable(e: IdleEntry, now: nat)
  {
    e.keepAliveUntil < now
  }

  function Min(a: nat, b: nat): nat { if a <= b then a else b }

  /// No worker appears twice.
  predicate IdsDistinct(s: seq<IdleEntry>)
  {
    forall i, j :: 0 <= i < j < |s| ==> s[i].worker.id != s[j].worker.id
  }

  /// Two positions of a sequence that holds the same entry twice.
  lemma {:induction false} TwoCopies(b: seq<IdleEntry>, x: IdleEntry) returns (p: nat, q: nat)
    requires multiset(b)[x] >= 2
    ensures p < q < |b| && b[p] == x && b[q] == x
  {
    assert b == [b[0]] + b[1..];
    if b[0] == x {
      assert x in multiset(b[1..]);
      var k :| 0 <= k < |b[1..]| && b[1..][k] == x;
      p, q := 0, k + 1;
    } else {
      var p', q' := TwoCopies(b[1..], x);
      p, q := p' + 1, q' + 1;
    }
  }

  /// Two different positions of `a` are found at two different positions of `b`.
  lemma Positions(a: seq<IdleEntry>, b: seq<IdleEntry>, i: nat, j: nat) returns (p: nat, q: nat)
    requires multiset(a) <= multiset(b) && i < j < |a|
    ensures p < |b| && q < |b| && p != q && b[p] == a[i] && b[q] == a[j]
  {
    assert a[i] in multiset(b) && a[j] in multiset(b);
    if a[i] == a[j] {
      assert a == a[..j] + [a[j]] + a[j + 1..];
      assert a[i] in multiset(a[..j]);
      assert multiset(a)[a[i]] >= 2;
      p, q := TwoCopies(b, a[i]);
    } else {
      p :| 0 <= p < |b| && b[p] == a[i];
      q :| 0 <= q < |b| && b[q] == a[j];
    }
  }

  /// Taking part of a list whose workers are distinct keeps them distinct.
  lemma DistinctSub(a: seq<IdleEntry>, b: seq<IdleEntry>)
    requires multiset(a) <= multiset(b) && IdsDistinct(b)
    ensures IdsDistinct(a)
  {
    forall i, j | 0 <= i < j < |a|
      ensures a[i].worker.id != a[j].worker.id
    {
      var p, q := Positions(a, b, i, j);
      if p > q {
        p, q := q, p;
      }
    }
  }

  /// The entries past their keep-alive, in idle order.
  function KillableOf(s: seq<IdleEntry>, now: nat): (r: seq<IdleEntry>)
    ensures |r| <= |s|
    ensures forall e :: e in r ==> e in s && Killable(e, now)
    ensures forall e :: e in s && Killable(e, now) ==> e in r
  {
    if s == [] then []
    else if Killable(s[0], now) then [s[0]] + KillableOf(s[1..], now)
    else KillableOf(s[1..], now)
  }

  /// The first pass splits the idle list: entries of dead workers are dropped,
  /// entries whose job has finished must exit (forced), the others are kept.
  datatype MustKill = MustKill(kept: seq<IdleEntry>, forced: seq<IdleEntry>)

  function MustKillPass(idle: seq<IdleEntry>, dead: set<WorkerId>, finished: set<JobId>): (r: MustKill)
    ensures |r.kept| + |r.forced| <= |idle|
    ensures multiset(r.kept) + multiset(r.forced) <= multiset(idle)
    ensures finished == {} ==> r.forced == []
  {
    if idle == [] then MustKill([], [])
    else
      assert idle == [idle[0]] + idle[1..];
      var rest := MustKillPass(idle[1..], dead, finished);
      var e := idle[0];
      if e.worker.id in dead then rest
      else if e.worker.job in finished then rest.(forced := [e] + rest.forced)
      else rest.(kept := [e] + rest.kept)
  }

  /// The capacity pass: from the oldest entry on, exits killable entries while
  /// `excess` of them remain to be removed; the others are retained.
  datatype Capacity = Capacity(exited: seq<IdleEntry>, retained: seq<IdleEntry>)

  function CapacityPass(kept: seq<IdleEntry>, now: nat, excess: nat): (r: Capacity)
    ensures |r.exited| + |r.retained| == |kept|
  {
    if kept == [] then Capacity([], [])
    else
      if excess > 0 && Killable(kept[0], now) then
        var rest := CapacityPass(kept[1..], now, excess - 1);
        Capacity([kept[0]] + rest.exited, rest.retained)
      else
        var rest := CapacityPass(kept[1..], now, excess);
        Capacity(rest.exited, [kept[0]] + rest.retained)
  }

  /// What the capacity pass does not exit it retains.
  lemma {:induction false} CapacityPassSplit(kept: seq<IdleEntry>, now: nat, excess: nat)
    ensures var r := CapacityPass(kept, now, excess);
            multiset(r.exited) + multiset(r.retained) == multiset(kept)
  {
    if kept != [] {
      assert kept == [kept[0]] + kept[1..];
      if excess > 0 && Killable(kept[0], now) {
        CapacityPassSplit(kept[1..], now, excess - 1);
      } else {
        CapacityPassSplit(kept[1..], now, excess);
      }
    }
  }

  /// Oldest first: the capacity exits are the first `excess` killable entries.
  lemma {:induction false} CapacityOldestFirst(kept: seq<IdleEntry>, now: nat, excess: nat)
    ensures CapacityPass(kept, now, excess).exited == KillableOf(kept, now)[..Min(excess, |KillableOf(kept, now)|)]
  {
    if kept == [] {
      assert KillableOf(kept, now) == [];
    } else {
      var k := KillableOf(kept, now);
      var k' := KillableOf(kept[1..], now);
      if excess > 0 && Killable(kept[0], now) {
        CapacityOldestFirst(kept[1..], now, excess - 1);
        assert CapacityPass(kept, now, excess).exited == [kept[0]] + CapacityPass(kept[1..], now, excess - 1).exited;
        assert k == [kept[0]] + k';
        assert Min(excess, |k|) == Min(excess - 1, |k'|) + 1;
        assert k[..Min(excess, |k|)] == [kept[0]] + k'[..Min(excess - 1, |k'|)];
      } else {
        CapacityOldestFirst(kept[1..], now, excess);
        assert CapacityPass(kept, now, excess).exited == CapacityPass(kept[1..], now, excess).exited;
        if Killable(kept[0], now) {
          assert excess == 0;
          assert k[..0] == [] == k'[..0];
        } else {
          assert k == k';
        }
      }
    }
  }

  /// The killable entries retained are cut down by exactly the exits, and every entry
  /// still inside its keep-alive is retained.
  lemma {:induction false} CapacityRetained(kept: seq<IdleEntry>, now: nat, excess: nat)
    ensures var r := CapacityPass(kept, now, excess);
            |KillableOf(r.retained, now)| == |KillableOf(kept, now)| - |r.exited|
    ensures var r := CapacityPass(kept, now, excess);
            forall e :: e in kept && !Killable(e, now) ==> e in r.retained
  {
    if kept != [] {
      var e0 := kept[0];
      assert kept == [e0] + kept[1..];
      if excess > 0 && Killable(e0, now) {
        CapacityRetained(kept[1..], now, excess - 1);
      } else {
        var rest := CapacityPass(kept[1..], now, excess);
        CapacityRetained(kept[1..], now, excess);
        assert ([e0] + rest.retained)[1..] == rest.retained;
      }
    }
  }

  /// Number of entries over the soft limit among the killable ones.
  function Excess(kept: seq<IdleEntry>, now: nat, softLimit: nat): nat
  {
    if |KillableOf(kept, now)| > softLimit then |KillableOf(kept, now)| - softLimit else 0
  }

  /// The result of one sweep: forced exits, capacity exits, and the idle list left.
  datatype Sweep = Sweep(forced: seq<IdleEntry>, exited: seq<IdleEntry>, retained: seq<IdleEntry>)

  function SweepIdle(idle: seq<IdleEntry>, dead: set<WorkerId>, finished: set<JobId>, now: nat, softLimit: nat)
    : (r: Sweep)
    ensures |r.forced| + |r.exited| + |r.retained| <= |idle|
  {
    var m := MustKillPass(idle, dead, finished);
    var c := CapacityPass(m.kept, now, Excess(m.kept, now, softLimit));
    Sweep(m.forced, c.exited, c.retained)
  }

  /// The first pass forces exactly the live entries of finished jobs and keeps exactly
  /// the live entries of live jobs.
  lemma {:induction false} MustKillPassSplit(idle: seq<IdleEntry>, dead: set<WorkerId>, finished: set<JobId>)
    ensures var r := MustKillPass(idle, dead, finished);
            forall e :: e in r.forced <==> e in idle && e.worker.id !in dead && e.worker.job in finished
    ensures var r := MustKillPass(idle, dead, finished);
            forall e :: e in r.kept <==> e in idle && e.worker.id !in dead && e.worker.job !in finished
  {
    if idle != [] {
      MustKillPassSplit(idle[1..], dead, finished);
      assert idle == [idle[0]] + idle[1..];
    }
  }

  /// After a sweep the killable entries left number the soft limit, or all of them when
  /// there were fewer.
  lemma SweepCapsKillable(idle: seq<IdleEntry>, dead: set<WorkerId>, finished: set<JobId>, now: nat, softLimit: nat)
    ensures var m := MustKillPass(idle, dead, finished);
            |KillableOf(SweepIdle(idle, dead, finished, now, softLimit).retained, now)|
              == Min(|KillableOf(m.kept, now)|, softLimit)
  {
    var m := MustKillPass(idle, dead, finished);
    CapacityOldestFirst(m.kept, now, Excess(m.kept, now, softLimit));
    CapacityRetained(m.kept, now, Excess(m.kept, now, softLimit));
  }

  /// Within the grace period nothing is exited for capacity: at most the finished
  /// jobs' entries leave.
  lemma SweepWithinGrace(idle: seq<IdleEntry>, dead: set<WorkerId>, finished: set<JobId>, now: nat, softLimit: nat)
    requires forall i :: 0 <= i < |idle| ==> !Killable(idle[i], now)
    ensures SweepIdle(idle, dead, finished, now, softLimit).exited == []
    ensures finished == {} ==> SweepIdle(idle, dead, finished, now, softLimit).forced == []
  {
    var m := MustKillPass(idle, dead, finished);
    MustKillPassSplit(idle, dead, finished);
    KillableNone(m.kept, now);
    CapacityOldestFirst(m.kept, now, Excess(m.kept, now, softLimit));
  }

  lemma {:induction false} KillableNone(s: seq<IdleEntry>, now: nat)
    requires forall e :: e in s ==> !Killable(e, now)
    ensures KillableOf(s, now) == []
  {
    if s != [] {
      KillableNone(s[1..], now);
    }
  }

  /// An entry protected by its keep-alive and belonging to a live job stays idle, even
  /// above the soft limit.
  lemma SweepSparesProtected(idle: seq<IdleEntry>, dead: set<WorkerId>, finished: set<JobId>, now: nat, softLimit: nat, e: IdleEntry)
    requires e in idle && e.worker.id !in dead && e.worker.job !in finished && !Killable(e, now)
    ensures e in SweepIdle(idle, dead, finished, now, softLimit).retained
  {
    MustKillPassSplit(idle, dead, finished);
    var m := MustKillPass(idle, dead, finished);
    CapacityRetained(m.kept, now, Excess(m.kept, now, softLimit));
  }

  /// Capacity exits are never forced and only take entries past their keep-alive.
  lemma SweepExitsKillable(idle: seq<IdleEntry>, dead: set<WorkerId>, finished: set<JobId>, now: nat, softLimit: nat)
    ensures forall e :: e in SweepIdle(idle, dead, finished, now, softLimit).exited ==>
              Killable(e, now) && e in idle && e.worker.id !in dead && e.worker.job !in finished
  {
    var m := MustKillPass(idle, dead, finished);
    var c := CapacityPass(m.kept, now, Excess(m.kept, now, softLimit));
    MustKillPassSplit(idle, dead, finished);
    CapacityOldestFirst(m.kept, now, Excess(m.kept, now, softLimit));
    forall e | e in c.exited
      ensures Killable(e, now) && e in m.kept
    {
      assert e in KillableOf(m.kept, now);
    }
  }

  /// A sweep takes every entry from the idle list at most once: the retained, capacity
  /// exited and forced entries together name each worker at most once, and all come
  /// from the idle list.
  lemma SweepDistinct(idle: seq<IdleEntry>, dead: set<WorkerId>, finished: set<JobId>, now: nat, softLimit: nat)
    requires IdsDistinct(idle)
    ensures var r := SweepIdle(idle, dead, finished, now, softLimit);
            IdsDistinct(r.retained + r.exited + r.forced) &&
            multiset(r.retained + r.exited + r.forced) <= multiset(idle)
  {
    var r := SweepIdle(idle, dead, finished, now, softLimit);
    var m := MustKillPass(idle, dead, finished);
    CapacityPassSplit(m.kept, now, Excess(m.kept, now, softLimit));
    assert multiset(r.retained + r.exited + r.forced)
        == multiset(r.retained) + multiset(r.exited) + multiset(r.forced);
    DistinctSub(r.retained + r.exited + r.forced, idle);
  }
}
