/**
 * The pool of pre-warmed Chrome profiles in main_cloud.py: the free list
 * `_free_profiles`, the alias -> profile map `_profile_assignments`, the
 * profile -> busy map `_active` and the running set `workers` (a dict whose
 * key order is insertion order).
 *
 * Each operation is a pure transition on a `PoolState` value; the class
 * `ProfilePool` holds the same four pieces of state as mutable fields and
 * its methods are proved to perform exactly those transitions.
 */
module Pool {
  import opened Wrappers
  import opened Strings
  import opened Aliases
  import opened Sequences

  type Profile = string

  /** `MAX_PROFILES`: the number of profile directories created at start-up. */
  const MaxProfiles := 10

  /**
   * `free` is `_free_profiles` (its head is reused first), `assignment` is
   * `_profile_assignments`, `active` is `_active` and `running` lists the
   * keys of `workers` in insertion order.
   */
  datatype PoolState = PoolState(
    free: seq<Profile>,
    assignment: map<Alias, Profile>,
    active: map<Profile, bool>,
    running: seq<Alias>)

  /** What the operator is told by `/run`, or by the KGB date flow that ends in run_kgb. */
  datatype StartResult =
    | AskKgbDates          // a `_kgb` alias: the Default/Custom keyboard is shown instead
    | UnknownAlias
    | BadSuffix
    | AlreadyRunning
    | Exhausted            // "Maximum of 10 concurrent sessions reached."
    | Started(profile: Profile)
    | ConstructorFailed    // the worker class rejected run_alias's arguments after the reservation

  datatype StopResult = NotRunning | Stopped

  /**
   * The pool's invariant over the set `all` of profile directories: every
   * profile is either free (once) or assignment (to one alias), never both;
   * assignment aliases are running; `_active` marks exactly the assignment profiles.
   */
  ghost predicate Inv(s: PoolState, all: set<Profile>) {
    && NoDup(s.free)
    && NoDup(s.running)
    && (forall p :: p in s.free ==> p in all)
    && (forall a :: a in s.assignment ==> s.assignment[a] in all && s.assignment[a] !in s.free)
    && (forall a, b :: a in s.assignment && b in s.assignment && a != b ==> s.assignment[a] != s.assignment[b])
    && (forall p :: p in all ==> p in s.free || p in s.assignment.Values)
    && (forall a :: a in s.assignment ==> a in s.running)
    && s.active.Keys == all
    && (forall p :: p in all ==> (s.active[p] <==> p in s.assignment.Values))
  }

  /** The state after on_startup: every profile free and inactive, nothing running. */
  function Initial(profiles: seq<Profile>): (s: PoolState)
    ensures s.free == profiles && s.assignment == map[] && s.running == []
    ensures s.active.Keys == set p | p in profiles
    ensures forall p :: p in s.active ==> !s.active[p]
  {
    PoolState(profiles, map[], map p | p in profiles :: false, [])
  }

  lemma InitialInv(profiles: seq<Profile>)
    requires NoDup(profiles)
    ensures Inv(Initial(profiles), set p | p in profiles)
  {
  }

  /** `workers[alias] = worker`: a new key goes last, an existing key keeps its place. */
  function Put(order: seq<Alias>, a: Alias): (r: seq<Alias>)
    ensures a in r
    ensures forall x :: x in r <==> x in order || x == a
    ensures NoDup(order) ==> NoDup(r)
  {
    if a in order then order else order + [a]
  }

  /** `workers.pop(alias)` on the key order. */
  function Without(order: seq<Alias>, a: Alias): (r: seq<Alias>)
    ensures forall x :: x in r <==> x in order && x != a
  {
    if order == [] then []
    else if order[0] == a then Without(order[1..], a)
    else [order[0]] + Without(order[1..], a)
  }

  lemma {:induction false} WithoutNoDup(order: seq<Alias>, a: Alias)
    requires NoDup(order)
    ensures NoDup(Without(order, a))
  {
    if order != [] {
      WithoutNoDup(order[1..], a);
      if order[0] != a {
        assert order[0] !in order[1..] by {
          forall k | 0 <= k < |order[1..]| ensures order[1..][k] != order[0] {
            assert order[1..][k] == order[k + 1];
          }
        }
      }
    }
  }

  /**
   * The shared part of run_alias and run_kgb once the alias is known: refuse
   * a running alias, then an empty free list; otherwise pop the head of the
   * free list, assign it and mark it busy.
   */
  function AcquireStep(s: PoolState, a: Alias): (r: (StartResult, PoolState))
    ensures r.0 in {AlreadyRunning, Exhausted} ==> r.1 == s
    ensures r.0 == AlreadyRunning <==> a in s.assignment
    ensures r.0 == Exhausted <==> a !in s.assignment && s.free == []
    ensures r.0.Started? ==>
      && s.free != [] && r.0.profile == s.free[0]
      && r.1.free == s.free[1..]
      && r.1.assignment == s.assignment[a := s.free[0]]
      && r.1.active == s.active[s.free[0] := true]
      && r.1.running == Put(s.running, a)
  {
    if a in s.assignment then (AlreadyRunning, s)
    else if s.free == [] then (Exhausted, s)
    else
      var p := s.free[0];
      (Started(p), PoolState(s.free[1..], s.assignment[a := p], s.active[p := true], Put(s.running, a)))
  }

  /**
   * run_alias: a `_kgb` alias is diverted to the date keyboard; then an
   * unknown alias, a suffix outside `_WORKER_CLASSES`, a running alias and an
   * exhausted pool are refused in that order, each leaving the pool unchanged.
   */
  function RunAliasStep(s: PoolState, a: Alias, known: set<Alias>): (r: (StartResult, PoolState))
    ensures !r.0.Started? ==> r.1 == s
    ensures r.0 == AskKgbDates <==> EndsWith(a, "_kgb")
    ensures r.0 == UnknownAlias <==> !EndsWith(a, "_kgb") && a !in known
    ensures r.0 == BadSuffix <==> !EndsWith(a, "_kgb") && a in known && SelectWorker(a).None?
    ensures !EndsWith(a, "_kgb") && a in known && SelectWorker(a).Some? ==> r == AcquireStep(s, a)
    ensures r.0.Started? ==> a in known && SelectWorker(a).Some? && r == AcquireStep(s, a)
  {
    if EndsWith(a, "_kgb") then (AskKgbDates, s)
    else if a !in known then (UnknownAlias, s)
    else if SelectWorker(a).None? then (BadSuffix, s)
    else AcquireStep(s, a)
  }

  /**
   * run_alias as written: IDBIWorker and IDFCWorker take `profile_dir` but
   * not the `driver` and `download_folder` arguments run_alias passes, so
   * their construction raises after the profile is reserved and before
   * `workers[alias]` is set. The reservation is never undone.
   */
  function RunAliasAsWrittenStep(s: PoolState, a: Alias, known: set<Alias>): (r: (StartResult, PoolState))
  {
    var (res, t) := RunAliasStep(s, a, known);
    if res.Started? && (SelectWorker(a) == Some(Idbi) || SelectWorker(a) == Some(Idfc))
    then (ConstructorFailed, t.(running := s.running))
    else (res, t)
  }

  /** run_kgb: unknown alias, running alias, exhausted pool, else acquire. */
  function RunKgbStep(s: PoolState, a: Alias, known: set<Alias>): (r: (StartResult, PoolState))
    ensures !r.0.Started? ==> r.1 == s
    ensures r.0 == UnknownAlias <==> a !in known
    ensures a in known ==> r == AcquireStep(s, a)
  {
    if a !in known then (UnknownAlias, s) else AcquireStep(s, a)
  }

  /**
   * stop_alias as written: drop the alias from `workers`; if it still holds
   * a profile, put that profile back at the FRONT of the free list.
   * `_active` is left untouched.
   */
  function StopAliasAsWrittenStep(s: PoolState, a: Alias): (r: (StopResult, PoolState))
  {
    if a !in s.running then (NotRunning, s)
    else if a !in s.assignment then (Stopped, s.(running := Without(s.running, a)))
    else
      var p := s.assignment[a];
      (Stopped, PoolState([p] + s.free, s.assignment - {a}, s.active, Without(s.running, a)))
  }

  /**
   * stop_alias with the released profile also marked inactive, as every
   * worker-side release does; this is the version the pool class uses.
   */
  function StopAliasStep(s: PoolState, a: Alias): (r: (StopResult, PoolState))
    ensures r.0 == NotRunning <==> a !in s.running
    ensures r.0 == NotRunning ==> r.1 == s
    ensures r.0 == Stopped ==> r.1.running == Without(s.running, a) && r.1.assignment == s.assignment - {a}
    ensures r.0 == Stopped ==> a !in r.1.running && a !in r.1.assignment
    ensures a in s.assignment && a in s.running ==>
      r.1.free == [s.assignment[a]] + s.free && r.1.active == s.active[s.assignment[a] := false]
    ensures a !in s.assignment ==> r.1.free == s.free && r.1.active == s.active
  {
    if a !in s.running then (NotRunning, s)
    else if a !in s.assignment then (Stopped, s.(running := Without(s.running, a)))
    else
      var p := s.assignment[a];
      (Stopped, PoolState([p] + s.free, s.assignment - {a}, s.active[p := false], Without(s.running, a)))
  }

  /**
   * The release block of IOBWorker.stop, IOBWorker._logout and
   * KGBWorker.stop: `_profile_assignments.pop(alias, None)` and, only if a
   * profile came back, append it to the END of the free list and mark it
   * inactive. The worker stays in `workers`.
   */
  function WorkerReleaseStep(s: PoolState, a: Alias): (r: PoolState)
    ensures r.assignment == s.assignment - {a} && r.running == s.running
    ensures a !in s.assignment ==> r == s
    ensures a in s.assignment ==>
      r.free == s.free + [s.assignment[a]] && r.active == s.active[s.assignment[a] := false]
  {
    if a !in s.assignment then s
    else
      var p := s.assignment[a];
      PoolState(s.free + [p], s.assignment - {a}, s.active[p := false], s.running)
  }

  /**
   * `for alias, _ in to_stop: _profile_assignments.pop(alias, None)`: the
   * remaining map and the profiles that came back, in stop order.
   */
  function PopAll(m: map<Alias, Profile>, order: seq<Alias>): (r: (map<Alias, Profile>, seq<Profile>))
    ensures forall a :: a in r.0 <==> a in m && a !in order
    ensures forall a :: a in r.0 ==> r.0[a] == m[a]
  {
    if order == [] then (m, [])
    else
      var prev := PopAll(m, order[..|order| - 1]);
      var a := order[|order| - 1];
      if a in prev.0 then (prev.0 - {a}, prev.1 + [prev.0[a]]) else prev
  }

  /** One more alias popped: the step the stop loop takes. */
  lemma PopAllSnoc(m: map<Alias, Profile>, order: seq<Alias>, i: nat)
    requires i < |order|
    ensures var prev := PopAll(m, order[..i]);
      PopAll(m, order[..i + 1]) ==
        if order[i] in prev.0 then (prev.0 - {order[i]}, prev.1 + [prev.0[order[i]]]) else prev
  {
    assert order[..i + 1][..i] == order[..i];
  }

  /**
   * stop_all as written: `workers` is cleared and every assignment popped;
   * the profiles are re-inserted only through a `profile_dir` or `profile`
   * attribute, which the TMB, IOB and KGB workers that `/run` can start
   * never set, so none comes back; `_active` is not touched either.
   */
  function StopAllAsWrittenStep(s: PoolState): (r: PoolState)
  {
    PoolState(s.free, PopAll(s.assignment, s.running).0, s.active, [])
  }

  function Reverse<T>(xs: seq<T>): (r: seq<T>)
    ensures |r| == |xs|
    ensures forall i :: 0 <= i < |xs| ==> r[i] == xs[|xs| - 1 - i]
  {
    if xs == [] then [] else [xs[|xs| - 1]] + Reverse(xs[..|xs| - 1])
  }

  function MarkInactive(active: map<Profile, bool>, ps: seq<Profile>): (r: map<Profile, bool>)
    ensures r.Keys == active.Keys + set p | p in ps
    ensures forall p :: p in r ==> (r[p] <==> (p !in ps && active[p]))
  {
    if ps == [] then active else MarkInactive(active, ps[..|ps| - 1])[ps[|ps| - 1] := false]
  }

  /**
   * stop_all as intended: the popped profiles go back to the front of the
   * free list (`insert(0, ...)` in stop order, so the last one stopped is
   * first) and are marked inactive.
   */
  function StopAllStep(s: PoolState): (r: PoolState)
    ensures r.running == [] && r.assignment == PopAll(s.assignment, s.running).0
  {
    var (rest, popped) := PopAll(s.assignment, s.running);
    PoolState(Reverse(popped) + s.free, rest, MarkInactive(s.active, popped), [])
  }

  // ---------------------------------------------------------------------
  // Properties of the transitions
  // ---------------------------------------------------------------------

  lemma AcquireInv(s: PoolState, a: Alias, all: set<Profile>)
    requires Inv(s, all)
    ensures Inv(AcquireStep(s, a).1, all)
  {
    var r := AcquireStep(s, a);
    if r.0.Started? {
      var p := s.free[0];
      var t := r.1;
      assert forall q :: q in t.free ==> q in s.free && q != p;
      forall q | q in all ensures q in t.free || q in t.assignment.Values {
        if q == p {
          assert t.assignment[a] == p;
        } else if q in s.free {
          assert q in s.free[1..];
        } else {
          var b :| b in s.assignment && s.assignment[b] == q;
          assert b != a && t.assignment[b] == q;
        }
      }
      forall q | q in all ensures t.active[q] <==> q in t.assignment.Values {
        if q != p {
          if q in t.assignment.Values {
            var b :| b in t.assignment && t.assignment[b] == q;
            assert b != a && s.assignment[b] == q;
          }
        }
      }
    }
  }

  lemma RunAliasInv(s: PoolState, a: Alias, known: set<Alias>, all: set<Profile>)
    requires Inv(s, all)
    ensures Inv(RunAliasStep(s, a, known).1, all)
  {
    AcquireInv(s, a, all);
  }

  lemma RunKgbInv(s: PoolState, a: Alias, known: set<Alias>, all: set<Profile>)
    requires Inv(s, all)
    ensures Inv(RunKgbStep(s, a, known).1, all)
  {
    AcquireInv(s, a, all);
  }

  lemma StopAliasInv(s: PoolState, a: Alias, all: set<Profile>)
    requires Inv(s, all)
    ensures Inv(StopAliasStep(s, a).1, all)
  {
    if a in s.running {
      WithoutNoDup(s.running, a);
    }
    if a in s.running && a in s.assignment {
      var p := s.assignment[a];
      var t := StopAliasStep(s, a).1;
      assert NoDup(t.free) by {
        assert p !in s.free;
      }
      forall q | q in all ensures q in t.free || q in t.assignment.Values {
        if q != p && q !in s.free {
          var b :| b in s.assignment && s.assignment[b] == q;
          assert b != a && t.assignment[b] == q;
        }
      }
      forall q | q in all ensures t.active[q] <==> q in t.assignment.Values {
        if q in t.assignment.Values {
          var b :| b in t.assignment && t.assignment[b] == q;
          assert b != a && s.assignment[b] == q;
        }
      }
    }
  }

  /**
   * A worker-side release never puts a profile on the free list twice, and
   * keeps the whole invariant.
   */
  lemma WorkerReleaseInv(s: PoolState, a: Alias, all: set<Profile>)
    requires Inv(s, all)
    ensures Inv(WorkerReleaseStep(s, a), all)
  {
    if a in s.assignment {
      var p := s.assignment[a];
      var t := WorkerReleaseStep(s, a);
      assert NoDup(t.free) by {
        assert p !in s.free;
      }
      forall q | q in all ensures q in t.free || q in t.assignment.Values {
        if q != p && q !in s.free {
          var b :| b in s.assignment && s.assignment[b] == q;
          assert b != a && t.assignment[b] == q;
        }
      }
      forall q | q in all ensures t.active[q] <==> q in t.assignment.Values {
        if q in t.assignment.Values {
          var b :| b in t.assignment && t.assignment[b] == q;
          assert b != a && s.assignment[b] == q;
        }
      }
    }
  }

  /**
   * Most-recently-released first: after `/stop` of an alias that held a
   * profile, the next successful start, of any alias, gets that profile.
   */
  lemma StopThenStartReuses(s: PoolState, a: Alias, b: Alias, known: set<Alias>)
    requires a in s.running && a in s.assignment
    requires b in known && !EndsWith(b, "_kgb") && SelectWorker(b).Some?
    requires b == a || b !in s.assignment
    ensures RunAliasStep(StopAliasStep(s, a).1, b, known).0 == Started(s.assignment[a])
  {
  }

  /**
   * Once `/stop` has popped the assignment, the worker's own release block
   * (`pop(alias, None)`) finds nothing and changes nothing.
   */
  lemma ReleaseAfterStopIsNoop(s: PoolState, a: Alias)
    requires a in s.running
    ensures WorkerReleaseStep(StopAliasStep(s, a).1, a) == StopAliasStep(s, a).1
    ensures WorkerReleaseStep(StopAliasAsWrittenStep(s, a).1, a) == StopAliasAsWrittenStep(s, a).1
  {
  }

  /** `/stop` after a worker released its own profile returns nothing to the pool. */
  lemma StopAfterReleaseIsNoop(s: PoolState, a: Alias)
    requires a in s.running
    ensures StopAliasStep(WorkerReleaseStep(s, a), a).1.free == WorkerReleaseStep(s, a).free
  {
  }

  lemma {:induction false} PopAllProfiles(m: map<Alias, Profile>, order: seq<Alias>)
    ensures forall p :: p in PopAll(m, order).1 <==> exists a :: a in m && a in order && m[a] == p
  {
    if order != [] {
      var init := order[..|order| - 1];
      var a := order[|order| - 1];
      PopAllProfiles(m, init);
      var prev := PopAll(m, init);
      forall p ensures p in PopAll(m, order).1 <==> exists b :: b in m && b in order && m[b] == p {
        if p in PopAll(m, order).1 {
          if p in prev.1 {
            var b :| b in m && b in init && m[b] == p;
            assert b in order;
          } else {
            assert a in m && m[a] == p;
          }
        }
        if exists b :: b in m && b in order && m[b] == p {
          var b :| b in m && b in order && m[b] == p;
          if b in init {
            assert p in prev.1;
          } else {
            assert b == a && a in prev.0;
          }
        }
      }
    }
  }

  lemma NoDupAppend<T>(xs: seq<T>, x: T)
    requires NoDup(xs) && x !in xs
    ensures NoDup(xs + [x])
  {
  }

  /** Popping the assignments of distinct aliases yields distinct profiles. */
  lemma {:induction false} PopAllNoDup(m: map<Alias, Profile>, order: seq<Alias>)
    requires forall a, b :: a in m && b in m && a != b ==> m[a] != m[b]
    ensures NoDup(PopAll(m, order).1)
  {
    if order != [] {
      var init := order[..|order| - 1];
      var a := order[|order| - 1];
      PopAllNoDup(m, init);
      PopAllProfiles(m, init);
      var prev := PopAll(m, init);
      if a in prev.0 {
        var q := prev.0[a];
        forall b | b in m && b in init ensures m[b] != q {
          assert b != a;
        }
        NoDupAppend(prev.1, q);
      }
    }
  }

  lemma ReverseNoDupPrepend(popped: seq<Profile>, free: seq<Profile>)
    requires NoDup(popped) && NoDup(free)
    requires forall p :: p in popped ==> p !in free
    ensures NoDup(Reverse(popped) + free)
  {
    var rp := Reverse(popped);
    var t := rp + free;
    forall i, j | 0 <= i < j < |t| ensures t[i] != t[j] {
      if j < |rp| {
        assert rp[i] == popped[|popped| - 1 - i] && rp[j] == popped[|popped| - 1 - j];
      } else if i < |rp| {
        assert t[i] == popped[|popped| - 1 - i] && t[j] == free[j - |rp|];
        assert popped[|popped| - 1 - i] in popped;
      } else {
        assert t[i] == free[i - |rp|] && t[j] == free[j - |rp|];
      }
    }
  }

  /** With every assigned alias running, stop_all pops exactly the assigned profiles. */
  lemma PopAllRunning(s: PoolState, all: set<Profile>)
    requires Inv(s, all)
    ensures PopAll(s.assignment, s.running).0 == map[]
    ensures forall p :: p in PopAll(s.assignment, s.running).1 <==> p in s.assignment.Values
    ensures NoDup(PopAll(s.assignment, s.running).1)
  {
    PopAllProfiles(s.assignment, s.running);
    PopAllNoDup(s.assignment, s.running);
    forall p | p in s.assignment.Values ensures p in PopAll(s.assignment, s.running).1 {
      var a :| a in s.assignment && s.assignment[a] == p;
      assert a in s.running;
    }
  }

  lemma ReverseMembers<T>(xs: seq<T>)
    ensures forall x :: x in Reverse(xs) <==> x in xs
  {
    var r := Reverse(xs);
    forall x | x in xs ensures x in r {
      var i :| 0 <= i < |xs| && xs[i] == x;
      assert r[|xs| - 1 - i] == x;
    }
    forall x | x in r ensures x in xs {
      var i :| 0 <= i < |r| && r[i] == x;
      assert xs[|xs| - 1 - i] == x;
    }
  }

  lemma StopAllFree(s: PoolState, all: set<Profile>)
    requires Inv(s, all)
    ensures var f := StopAllStep(s).free;
      NoDup(f) && (forall p :: p in all <==> p in f)
  {
    var popped := PopAll(s.assignment, s.running).1;
    PopAllRunning(s, all);
    ReverseNoDupPrepend(popped, s.free);
    ReverseMembers(popped);
  }

  lemma StopAllActive(s: PoolState, all: set<Profile>)
    requires Inv(s, all)
    ensures var act := StopAllStep(s).active;
      act.Keys == all && forall p :: p in all ==> !act[p]
  {
    var popped := PopAll(s.assignment, s.running).1;
    PopAllRunning(s, all);
    var act := StopAllStep(s).active;
    assert act == MarkInactive(s.active, popped);
    forall p | p in all ensures !act[p] {
      if s.active[p] {
        assert p in popped;
      }
    }
  }

  /** After the intended stop_all every profile is free again and inactive. */
  lemma StopAllFreesEverything(s: PoolState, all: set<Profile>)
    requires Inv(s, all)
    ensures var t := StopAllStep(s); Inv(t, all) && t.assignment == map[] && (forall p :: p in all ==> p in t.free)
  {
    PopAllRunning(s, all);
    StopAllFree(s, all);
    StopAllActive(s, all);
  }

  /**
   * Finding: stop_alias leaves `_active` set for the profile it frees, so
   * the keep-alive thread (which refreshes only inactive profiles) never
   * refreshes it again. One alias on one profile shows it.
   */
  lemma StopAliasAsWrittenLeavesActive()
    ensures var s := PoolState([], map["a_tmb" := "p1"], map["p1" := true], ["a_tmb"]);
      && Inv(s, {"p1"})
      && var t := StopAliasAsWrittenStep(s, "a_tmb").1;
         t.free == ["p1"] && t.active["p1"] && !Inv(t, {"p1"})
  {
    var s := PoolState([], map["a_tmb" := "p1"], map["p1" := true], ["a_tmb"]);
    var t := StopAliasAsWrittenStep(s, "a_tmb").1;
    assert t.assignment == map[];
    assert "p1" !in t.assignment.Values;
  }

  /**
   * Finding: run_alias as written on an IDBI or IDFC alias reserves the head
   * profile and then fails to build the worker. The profile stays assigned,
   * but the alias is not in `workers`: `/stop` answers "not running", a
   * second `/run` answers "Already running", stop_all (which iterates over
   * `workers`) leaves the assignment in place, and the invariant is broken.
   * The profile is lost until the bot restarts.
   */
  lemma RunAliasAsWrittenLeaks(s: PoolState, a: Alias, known: set<Alias>, all: set<Profile>)
    requires Inv(s, all) && a in known && a !in s.running && s.free != []
    requires SelectWorker(a) == Some(Idbi) || SelectWorker(a) == Some(Idfc)
    ensures var (res, t) := RunAliasAsWrittenStep(s, a, known);
      && res == ConstructorFailed
      && t.assignment == s.assignment[a := s.free[0]] && s.free[0] !in t.free && t.active[s.free[0]]
      && a !in t.running && !Inv(t, all)
      && StopAliasAsWrittenStep(t, a) == (NotRunning, t)
      && RunAliasAsWrittenStep(t, a, known) == (AlreadyRunning, t)
      && a in PopAll(t.assignment, t.running).0
  {
    NotKgb(a);
    var t := RunAliasAsWrittenStep(s, a, known).1;
    assert s.free[0] !in s.free[1..] by {
      forall k | 0 <= k < |s.free[1..]| ensures s.free[1..][k] != s.free[0] {
        assert s.free[1..][k] == s.free[k + 1];
      }
    }
    OrphanStuck(t, a, known, all);
  }

  /** An alias that holds a profile without a `workers` entry can be neither stopped nor started again. */
  lemma OrphanStuck(t: PoolState, a: Alias, known: set<Alias>, all: set<Profile>)
    requires a in t.assignment && a !in t.running
    ensures !Inv(t, all)
    ensures StopAliasAsWrittenStep(t, a) == (NotRunning, t)
    ensures a in known && !EndsWith(a, "_kgb") && SelectWorker(a).Some? ==>
      RunAliasAsWrittenStep(t, a, known) == (AlreadyRunning, t)
    ensures a in PopAll(t.assignment, t.running).0
  {
  }

  /** An alias that selects IDBI or IDFC does not end in "_kgb": the KGB entry comes first in the table. */
  lemma NotKgb(a: Alias)
    requires SelectWorker(a) == Some(Idbi) || SelectWorker(a) == Some(Idfc)
    ensures !EndsWith(a, "_kgb")
  {
  }

  /**
   * Finding: stop_all as written loses every assignment profile: with one
   * alias running on the only profile, afterwards that profile is neither
   * free nor assignment, and every later start is refused as exhausted.
   */
  lemma StopAllAsWrittenLeaks(known: set<Alias>)
    requires "b_iob" in known
    ensures var s := PoolState([], map["a_tmb" := "p1"], map["p1" := true], ["a_tmb"]);
      && Inv(s, {"p1"})
      && var t := StopAllAsWrittenStep(s);
         t.free == [] && t.assignment == map[] && !Inv(t, {"p1"})
         && RunAliasStep(t, "b_iob", known).0 == Exhausted
  {
    var s := PoolState([], map["a_tmb" := "p1"], map["p1" := true], ["a_tmb"]);
    assert s.running[..0] == [];
    var t := StopAllAsWrittenStep(s);
    assert t.assignment == map[];
    assert !EndsWith("b_iob", "_kgb");
    assert HasSuffix("b_iob", 1);
  }

  // ---------------------------------------------------------------------
  // The pool as the program holds it: four module-level containers
  // ---------------------------------------------------------------------

  class ProfilePool {
    var free: seq<Profile>
    var assignment: map<Alias, Profile>
    var active: map<Profile, bool>
    var running: seq<Alias>
    ghost const all: set<Profile>

    function State(): PoolState
      reads this
    {
      PoolState(free, assignment, active, running)
    }

    ghost predicate Valid()
      reads this
    {
      Inv(State(), all)
    }

    /** The pool after on_startup: all profiles free, none active. */
    constructor (profiles: seq<Profile>)
      requires NoDup(profiles)
      ensures Valid() && State() == Initial(profiles)
      ensures all == set p | p in profiles
    {
      free := profiles;
      assignment := map[];
      active := map p | p in profiles :: false;
      running := [];
      all := set p | p in profiles;
      InitialInv(profiles);
    }

    /** The reservation block shared by run_alias (3356-3359) and run_kgb (146-149). */
    method Reserve(a: Alias) returns (r: StartResult)
      requires Valid()
      modifies this
      ensures Valid()
      ensures (r, State()) == AcquireStep(old(State()), a)
    {
      AcquireInv(State(), a, all);
      if a in assignment {
        return AlreadyRunning;
      }
      if free == [] {
        return Exhausted;
      }
      var p := free[0];
      free := free[1..];
      assignment := assignment[a := p];
      active := active[p := true];
      if a !in running {
        running := running + [a];
      }
      r := Started(p);
    }

    method RunAlias(a: Alias, known: set<Alias>) returns (r: StartResult)
      requires Valid()
      modifies this
      ensures Valid()
      ensures (r, State()) == RunAliasStep(old(State()), a, known)
    {
      if EndsWith(a, "_kgb") {
        return AskKgbDates;
      }
      if a !in known {
        return UnknownAlias;
      }
      if SelectWorker(a).None? {
        return BadSuffix;
      }
      r := Reserve(a);
    }

    method RunKgb(a: Alias, known: set<Alias>) returns (r: StartResult)
      requires Valid()
      modifies this
      ensures Valid()
      ensures (r, State()) == RunKgbStep(old(State()), a, known)
    {
      if a !in known {
        return UnknownAlias;
      }
      r := Reserve(a);
    }

    method StopAlias(a: Alias) returns (r: StopResult)
      requires Valid()
      modifies this
      ensures Valid()
      ensures (r, State()) == StopAliasStep(old(State()), a)
    {
      StopAliasInv(State(), a, all);
      if a !in running {
        return NotRunning;
      }
      running := Without(running, a);
      if a in assignment {
        var p := assignment[a];
        assignment := assignment - {a};
        free := [p] + free;
        active := active[p := false];
      }
      r := Stopped;
    }

    /** The release block inside IOBWorker.stop, IOBWorker._logout and KGBWorker.stop. */
    method WorkerRelease(a: Alias)
      requires Valid()
      modifies this
      ensures Valid()
      ensures State() == WorkerReleaseStep(old(State()), a)
    {
      WorkerReleaseInv(State(), a, all);
      if a in assignment {
        var p := assignment[a];
        assignment := assignment - {a};
        free := free + [p];
        active := active[p := false];
      }
    }

    /** stop_all with the popped profiles returned to the pool (the corrected version). */
    method StopAll()
      requires Valid()
      modifies this
      ensures Valid()
      ensures State() == StopAllStep(old(State()))
    {
      ghost var s0 := State();
      StopAllFreesEverything(s0, all);
      var popped := PopRunning();
      ReturnProfiles(popped);
    }

    /** The `for alias, _ in to_stop` loop: clear `workers`, popping each alias's profile. */
    method PopRunning() returns (popped: seq<Profile>)
      modifies this
      ensures assignment == PopAll(old(assignment), old(running)).0
      ensures popped == PopAll(old(assignment), old(running)).1
      ensures free == old(free) && active == old(active) && running == []
    {
      var toStop := running;
      var m0 := assignment;
      var m := m0;
      var ps: seq<Profile> := [];
      var i := 0;
      while i < |toStop|
        invariant 0 <= i <= |toStop|
        invariant (m, ps) == PopAll(m0, toStop[..i])
        modifies {}
      {
        PopAllSnoc(m0, toStop, i);
        var a := toStop[i];
        if a in m {
          ps := ps + [m[a]];
          m := m - {a};
        }
        i := i + 1;
      }
      assert toStop[..i] == toStop;
      running := [];
      assignment := m;
      popped := ps;
    }

    /** Each popped profile is inserted at the front of the free list and marked inactive. */
    method ReturnProfiles(popped: seq<Profile>)
      modifies this
      ensures free == Reverse(popped) + old(free)
      ensures active == MarkInactive(old(active), popped)
      ensures assignment == old(assignment) && running == old(running)
    {
      var j := 0;
      while j < |popped|
        invariant 0 <= j <= |popped|
        invariant free == Reverse(popped[..j]) + old(free)
        invariant active == MarkInactive(old(active), popped[..j])
        invariant assignment == old(assignment) && running == old(running)
      {
        assert popped[..j + 1][..j] == popped[..j];
        free := [popped[j]] + free;
        active := active[popped[j] := false];
        j := j + 1;
      }
      assert popped[..j] == popped;
    }
  }
}
