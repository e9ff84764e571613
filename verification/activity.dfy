/**
 * The liveness report of main_cloud.py: every worker's `_send` stamps
 * `last_active[alias]` with the current time, and `/active` shows an alias
 * as live iff it has a stamp no older than three minutes. Times are whole
 * microseconds, the resolution of `datetime`.
 */
module Activity {
  import opened Aliases

  /** `timedelta(minutes=3)` in microseconds. */
  const Window := 3 * 60 * 1000000

  /** The `/active` test: `last and last >= cutoff` with `cutoff = now - 3 minutes`. */
  predicate IsActive(last: map<Alias, int>, alias: Alias, now: int) {
    alias in last && last[alias] >= now - Window
  }

  /** One flag per running alias, in `workers` order, as `/active` lists them. */
  function Report(running: seq<Alias>, last: map<Alias, int>, now: int): (r: seq<(Alias, bool)>)
    ensures |r| == |running|
    ensures forall i :: 0 <= i < |running| ==> r[i] == (running[i], IsActive(last, running[i], now))
  {
    if running == [] then []
    else [(running[0], IsActive(last, running[0], now))] + Report(running[1..], last, now)
  }

  /** A message sent at time t keeps its alias live for exactly the next three minutes. */
  lemma SendKeepsActive(last: map<Alias, int>, alias: Alias, t: int, now: int)
    ensures IsActive(last[alias := t], alias, now) <==> now <= t + Window
  {
  }

  /** A stamp older than three minutes, or none at all, reports the alias as not live. */
  lemma StaleIsInactive(last: map<Alias, int>, alias: Alias, now: int)
    requires alias !in last || last[alias] < now - Window
    ensures !IsActive(last, alias, now)
    ensures forall i :: 0 <= i < |Report([alias], last, now)| ==> !Report([alias], last, now)[i].1
  {
  }

  /** Another worker's message never changes whether an alias is live. */
  lemma SendIsPerAlias(last: map<Alias, int>, other: Alias, t: int, alias: Alias, now: int)
    requires other != alias
    ensures IsActive(last[other := t], alias, now) == IsActive(last, alias, now)
  {
  }

  /** Liveness only fades: an alias not live at `now` is not live later without a new message. */
  lemma InactiveStaysInactive(last: map<Alias, int>, alias: Alias, now: int, later: int)
    requires now <= later && !IsActive(last, alias, now)
    ensures !IsActive(last, alias, later)
  {
  }

  /** The module-level `last_active` dictionary. */
  class ActivityLog {
    var lastActive: map<Alias, int>

    constructor ()
      ensures lastActive == map[]
    {
      lastActive := map[];
    }

    /** `_send` / `_send_msg`: `last_active[self.alias] = datetime.now()`. */
    method Send(alias: Alias, now: int)
      modifies this
      ensures lastActive == old(lastActive)[alias := now]
      ensures IsActive(lastActive, alias, now)
    {
      lastActive := lastActive[alias := now];
    }

    /** The `/active` listing; it changes nothing. */
    method ActiveReport(running: seq<Alias>, now: int) returns (r: seq<(Alias, bool)>)
      ensures r == Report(running, lastActive, now)
    {
      r := [];
      var i := 0;
      while i < |running|
        invariant 0 <= i <= |running|
        invariant r == Report(running[..i], lastActive, now)
      {
        ReportAppend(running[..i], running[i], lastActive, now);
        assert running[..i + 1] == running[..i] + [running[i]];
        r := r + [(running[i], IsActive(lastActive, running[i], now))];
        i := i + 1;
      }
      assert running[..i] == running;
    }
  }

  lemma ReportAppend(running: seq<Alias>, a: Alias, last: map<Alias, int>, now: int)
    ensures Report(running + [a], last, now) == Report(running, last, now) + [(a, IsActive(last, a, now))]
  {
  }
}
