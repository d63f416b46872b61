/** xvnc.py: the session tracker `xvnc_Generator`.

    One object folds the matched log lines into `logins` (host -> pid ->
    records, plus a session counter and a total login time per host) and
    `users` (user -> count), remembering the first and last event times in
    `start` and `end`. In this variant a matched close REMOVES the record
    it closes, so before `closeLogs` every pid holds either no record or a
    single active one; `closeLogs` then deactivates whatever is still open
    and charges it up to `end`.
 */
module Xvnc {
  import opened Sums
  import opened Sessions

  /** The position of the first element equal to `x`. */
  function FirstIndex(s: seq<Rec>, x: Rec): (i: nat)
    requires x in s
    ensures i < |s| && s[i] == x && x !in s[..i]
  {
    if s[0] == x then 0
    else
      assert x in s[1..] by {
        var k :| 0 <= k < |s| && s[k] == x;
        assert s[1..][k - 1] == x;
      }
      var j := FirstIndex(s[1..], x);
      assert s[..j + 1] == [s[0]] + s[1..][..j];
      j + 1
  }

  /** Python's `list.remove(x)`: drop the first element equal to `x`,
      keeping the order of the others. */
  function RemoveFirst(s: seq<Rec>, x: Rec): (r: seq<Rec>)
    requires x in s
    ensures |r| == |s| - 1
    ensures multiset(r) == multiset(s) - multiset{x}
    ensures exists i | 0 <= i < |s| :: s[i] == x && x !in s[..i] && r == s[..i] + s[i + 1..]
  {
    var i := FirstIndex(s, x);
    assert s == s[..i] + [s[i]] + s[i + 1..];
    s[..i] + s[i + 1..]
  }

  /** `closeSess` on the entry of the event's host (`EmptyHost` when the
      host is new). */
  function CloseHost(h: HostLog, pid: nat, t: int): (s: Step)
    ensures pid !in h.pids ==>
      && s.counted && s.diag == None
      && s.host.sessions == h.sessions + 1 && s.host.totTime == h.totTime
      && s.host.pids == h.pids[pid := PidLog(1, [])]
    ensures pid in h.pids && !HasActive(h.pids[pid].recs) ==>
      s == Step(false, Some(AlreadyClosed), h)
    ensures pid in h.pids && HasActive(h.pids[pid].recs) ==>
      var recs := h.pids[pid].recs;
      && !s.counted && s.diag == None
      && s.host.sessions == h.sessions
      && s.host.totTime == h.totTime + (t - StartOr0(recs[FirstActive(recs)]))
      && s.host.pids.Keys == h.pids.Keys
      && s.host.pids[pid].count == h.pids[pid].count
      && |s.host.pids[pid].recs| == |recs| - 1
      && forall p | p in h.pids && p != pid :: s.host.pids[p] == h.pids[p]
  {
    if pid !in h.pids then
      Step(true, None, HostLog(h.pids[pid := PidLog(1, [])], h.sessions + 1, h.totTime))
    else
      var pl := h.pids[pid];
      if HasActive(pl.recs) then
        var i := FirstActive(pl.recs);
        var item := Rec(pl.recs[i].start, Some(t), false);
        var recs := pl.recs[i := item];
        assert recs[i] == item;
        Step(false, None,
             HostLog(h.pids[pid := PidLog(pl.count, RemoveFirst(recs, item))],
                     h.sessions, h.totTime + (t - StartOr0(item))))
      else
        Step(false, Some(AlreadyClosed), h)
  }

  /** `closeSess` on one host's entry: the scan for the first active
      record, which is ended, charged and removed. */
  method CloseStep(h: HostLog, pid: nat, t: int) returns (s: Step)
    ensures s == CloseHost(h, pid, t)
  {
    if pid !in h.pids {
      return Step(true, None, HostLog(h.pids[pid := PidLog(1, [])], h.sessions + 1, h.totTime));
    }
    var pl := h.pids[pid];
    var i := ScanActive(pl.recs);
    if i == -1 {
      // "pid already closed" is written to standard error
      return Step(false, Some(AlreadyClosed), h);
    }
    var item := Rec(pl.recs[i].start, Some(t), false);
    var recs := pl.recs[i := item];
    assert recs[i] == item;
    s := Step(false, None,
              HostLog(h.pids[pid := PidLog(pl.count, RemoveFirst(recs, item))],
                      h.sessions, h.totTime + (t - StartOr0(item))));
  }

  // ---------------------------------------------------------------------
  // The invariant kept while lines are read.

  /** A pid holds no record or exactly one active record. */
  predicate PidShape(pl: PidLog) {
    pl.count >= 1 && (pl.recs == [] || (|pl.recs| == 1 && pl.recs[0].active))
  }

  /** Every pid is in shape and the host's counter is the sum of its pid
      counters. */
  ghost predicate Tracked(h: HostLog) {
    && (forall p | p in h.pids :: PidShape(h.pids[p]))
    && h.sessions == Total(CountsOf(h.pids))
  }

  /** A tracked host that has seen a pid has a positive session counter. */
  lemma TrackedSessions(h: HostLog)
    requires Tracked(h)
    ensures h.sessions >= 0
    ensures h.pids != map[] ==> h.sessions >= 1
  {
    TotalNonneg(CountsOf(h.pids));
    if h.pids != map[] {
      var p :| p in h.pids;
      TotalPositive(CountsOf(h.pids), p);
    }
  }

  /** `openSess` keeps the invariant, bumps the counter exactly when it
      returns True, and leaves a positive counter. */
  lemma OpenTracked(h: HostLog, pid: nat, t: int)
    requires Tracked(h)
    ensures var s := OpenHost(h, pid, t);
      && Tracked(s.host)
      && s.host.sessions == h.sessions + (if s.counted then 1 else 0)
      && s.host.sessions >= 1
  {
    var s := OpenHost(h, pid, t);
    TrackedSessions(h);
    if s.counted {
      assert s.host.pids == h.pids[pid := s.host.pids[pid]];
      CountTotalUpdate(h.pids, pid, s.host.pids[pid]);
    }
  }

  /** `closeSess` keeps the invariant and bumps the counter exactly when it
      returns True; a matched close empties the pid's list and charges the
      time since that record's start. */
  lemma CloseTracked(h: HostLog, pid: nat, t: int)
    requires Tracked(h)
    ensures var s := CloseHost(h, pid, t);
      && Tracked(s.host)
      && s.host.sessions == h.sessions + (if s.counted then 1 else 0)
      && s.host.sessions >= 1
    ensures pid in h.pids && HasActive(h.pids[pid].recs) ==>
      var s := CloseHost(h, pid, t);
      && s.host.pids[pid].recs == []
      && s.host.totTime == h.totTime + (t - StartOr0(h.pids[pid].recs[0]))
  {
    var s := CloseHost(h, pid, t);
    TrackedSessions(h);
    if pid !in h.pids {
      CountTotalUpdate(h.pids, pid, PidLog(1, []));
    } else if HasActive(h.pids[pid].recs) {
      assert s.host.pids == h.pids[pid := s.host.pids[pid]];
      CountTotalUpdate(h.pids, pid, s.host.pids[pid]);
    }
  }

  /** `openSess` on the whole `logins` dictionary. */
  lemma OpenLogins(logins: map<string, HostLog>, host: string, pid: nat, t: int)
    requires forall h | h in logins :: Tracked(logins[h])
    ensures var s := OpenHost(HostOf(logins, host), pid, t);
      var after := logins[host := s.host];
      && (forall h | h in after :: Tracked(after[h]))
      && after[host].sessions >= 1
      && Total(SessionsOf(after)) == Total(SessionsOf(logins)) + (if s.counted then 1 else 0)
  {
    var s := OpenHost(HostOf(logins, host), pid, t);
    OpenTracked(HostOf(logins, host), pid, t);
    SessionTotalUpdate(logins, host, s.host);
  }

  /** `closeSess` on the whole `logins` dictionary. */
  lemma CloseLogins(logins: map<string, HostLog>, host: string, pid: nat, t: int)
    requires forall h | h in logins :: Tracked(logins[h])
    ensures var s := CloseHost(HostOf(logins, host), pid, t);
      var after := logins[host := s.host];
      && (forall h | h in after :: Tracked(after[h]))
      && after[host].sessions >= 1
      && Total(SessionsOf(after)) == Total(SessionsOf(logins)) + (if s.counted then 1 else 0)
  {
    var s := CloseHost(HostOf(logins, host), pid, t);
    CloseTracked(HostOf(logins, host), pid, t);
    SessionTotalUpdate(logins, host, s.host);
  }

  // ---------------------------------------------------------------------
  // closeLogs

  /** A host after `closeLogs`: every active record is ended at `e` and
      deactivated, and what each owed is added to `totTime`. */
  ghost function FinalHost(h: HostLog, e: int): HostLog {
    HostLog(map p | p in h.pids :: PidLog(h.pids[p].count, FinalRecs(h.pids[p].recs, e)),
            h.sessions, h.totTime + Total(DueOf(h.pids, e)))
  }

  ghost function FinalLogins(logins: map<string, HostLog>, e: int): map<string, HostLog> {
    map h | h in logins :: FinalHost(logins[h], e)
  }

  ghost predicate Settled(logins: map<string, HostLog>) {
    forall h, p | h in logins && p in logins[h].pids :: !HasActive(logins[h].pids[p].recs)
  }

  /** `closeLogs` leaves a host with no active record as it is. */
  lemma FinalSettled(h: HostLog, e: int)
    requires forall p | p in h.pids :: !HasActive(h.pids[p].recs)
    ensures FinalHost(h, e) == h
  {
    forall p | p in h.pids ensures Due(h.pids[p].recs, e) == 0 {
      DueNoActive(h.pids[p].recs, e);
    }
    TotalZero(DueOf(h.pids, e));
    forall p | p in h.pids ensures FinalRecs(h.pids[p].recs, e) == h.pids[p].recs {
      var r := h.pids[p].recs;
      assert forall i | 0 <= i < |r| :: !r[i].active;
    }
  }

  /** `closeLogs` leaves a log with no active record as it is. */
  lemma FinalLoginsSettled(logins: map<string, HostLog>, e: int)
    requires Settled(logins)
    ensures FinalLogins(logins, e) == logins
  {
    forall h | h in logins ensures FinalHost(logins[h], e) == logins[h] {
      FinalSettled(logins[h], e);
    }
  }

  /** After `closeLogs` nothing is active and the counters are unchanged,
      so a second `closeLogs` changes nothing. */
  lemma FinalIdempotent(logins: map<string, HostLog>, e: int)
    ensures Settled(FinalLogins(logins, e))
    ensures SessionsOf(FinalLogins(logins, e)) == SessionsOf(logins)
    ensures FinalLogins(FinalLogins(logins, e), e) == FinalLogins(logins, e)
  {
    FinalLoginsSettled(FinalLogins(logins, e), e);
  }

  /** The loop over one list in `closeLogs`: each active record is ended
      and deactivated in place, and its time since start is summed. */
  method FinalizeRecs(recs: seq<Rec>, e: int) returns (out: seq<Rec>, due: int)
    ensures out == FinalRecs(recs, e)
    ensures due == Due(recs, e)
  {
    out, due := recs, 0;
    var i := 0;
    while i < |recs|
      invariant 0 <= i <= |recs| && |out| == |recs|
      invariant forall k | 0 <= k < i :: out[k] == Finish(recs[k], e)
      invariant forall k | i <= k < |recs| :: out[k] == recs[k]
      invariant due == Due(recs[..i], e)
    {
      assert recs[..i + 1][..i] == recs[..i];
      if out[i].active {
        due := due + (e - StartOr0(out[i]));
        out := out[i := Rec(out[i].start, Some(e), false)];
      }
      i := i + 1;
    }
    assert recs[..i] == recs;
  }

  /** The loop over one host's pids in `closeLogs`. */
  method FinalizeHost(h: HostLog, e: int) returns (r: HostLog)
    ensures r == FinalHost(h, e)
  {
    var todo := h.pids.Keys;
    var pids := h.pids;
    var tot := h.totTime;
    while todo != {}
      invariant todo <= h.pids.Keys && pids.Keys == h.pids.Keys
      invariant forall p | p in h.pids && p !in todo ::
        pids[p] == PidLog(h.pids[p].count, FinalRecs(h.pids[p].recs, e))
      invariant forall p | p in todo :: pids[p] == h.pids[p]
      invariant tot == h.totTime + Total(DueOf(h.pids - todo, e))
      decreases todo
    {
      var p :| p in todo;
      var recs, due := FinalizeRecs(pids[p].recs, e);
      assert DueOf(h.pids - (todo - {p}), e) == DueOf(h.pids - todo, e)[p := due];
      TotalUpdate(DueOf(h.pids - todo, e), p, due);
      pids := pids[p := PidLog(pids[p].count, recs)];
      tot := tot + due;
      todo := todo - {p};
    }
    assert h.pids - {} == h.pids;
    r := HostLog(pids, h.sessions, tot);
  }

  /** The loop over the hosts in `closeLogs`. */
  method FinalizeAll(logins: map<string, HostLog>, e: int) returns (r: map<string, HostLog>)
    ensures r == FinalLogins(logins, e)
  {
    var todo := logins.Keys;
    r := logins;
    while todo != {}
      invariant todo <= logins.Keys && r.Keys == logins.Keys
      invariant forall h | h in logins && h !in todo :: r[h] == FinalHost(logins[h], e)
      invariant forall h | h in todo :: r[h] == logins[h]
      decreases todo
    {
      var h :| h in todo;
      var fin := FinalizeHost(r[h], e);
      r := r[h := fin];
      todo := todo - {h};
    }
  }

  // ---------------------------------------------------------------------
  // The tracker object.

  class Generator {
    var logins: map<string, HostLog>
    var users: map<string, int>
    var start: int
    var end: int

    /** Every host is in shape while lines are read. */
    ghost predicate HostsTracked()
      reads this
    {
      forall h | h in logins :: Tracked(logins[h])
    }

    /** What the report relies on: every host has at least one session (so
        the average login time never divides by zero), and the user counts
        add up to the host session counts. */
    ghost predicate Balanced()
      reads this
    {
      && (forall h | h in logins :: logins[h].sessions >= 1)
      && Total(users) == Total(SessionsOf(logins))
    }

    ghost predicate Valid()
      reads this
    {
      HostsTracked() && Balanced()
    }

    constructor ()
      ensures Valid()
      ensures logins == map[] && users == map[] && start == 0 && end == 0
    {
      logins, users := map[], map[];
      start, end := 0, 0;
      assert SessionsOf(map[]) == map[];
    }

    /** `readLine`, given the outcome of the pattern search. */
    method ReadLine(m: Option<Match>) returns (diag: Option<Diag>)
      requires Valid()
      modifies this
      ensures Valid()
      ensures m.None? ==> diag == None && unchanged(this)
      ensures m.Some? && m.value.stamp.None? ==> diag == Some(BadTime) && unchanged(this)
      ensures m.Some? && m.value.stamp.Some? ==>
        && start == (if old(start) == 0 then m.value.stamp.value else old(start))
        && end == m.value.stamp.value
      ensures m.Some? && m.value.stamp.Some? && m.value.action == "opened" ==>
        var s := OpenHost(HostOf(old(logins), m.value.host), m.value.pid, m.value.stamp.value);
        && logins == old(logins)[m.value.host := s.host] && diag == s.diag
        && users == (if s.counted then Tallied(old(users), m.value.user) else old(users))
      ensures m.Some? && m.value.stamp.Some? && m.value.action == "closed" ==>
        var s := CloseHost(HostOf(old(logins), m.value.host), m.value.pid, m.value.stamp.value);
        && logins == old(logins)[m.value.host := s.host] && diag == s.diag
        && users == (if s.counted then Tallied(old(users), m.value.user) else old(users))
      ensures m.Some? && m.value.stamp.Some? && m.value.action != "opened" && m.value.action != "closed" ==>
        logins == old(logins) && users == old(users) && diag == None
    {
      diag := None;
      if m.Some? {
        diag := AddExp(m.value);
      }
    }

    /** `addExp`: a line whose time does not parse is reported and skipped;
        otherwise the event time becomes `end` (and `start` if `start` is
        still 0) and the action is dispatched. */
    method AddExp(m: Match) returns (diag: Option<Diag>)
      requires Valid()
      modifies this
      ensures Valid()
      ensures m.stamp.None? ==> diag == Some(BadTime) && unchanged(this)
      ensures m.stamp.Some? ==>
        && start == (if old(start) == 0 then m.stamp.value else old(start))
        && end == m.stamp.value
      ensures m.stamp.Some? && m.action == "opened" ==>
        var s := OpenHost(HostOf(old(logins), m.host), m.pid, m.stamp.value);
        && logins == old(logins)[m.host := s.host] && diag == s.diag
        && users == (if s.counted then Tallied(old(users), m.user) else old(users))
      ensures m.stamp.Some? && m.action == "closed" ==>
        var s := CloseHost(HostOf(old(logins), m.host), m.pid, m.stamp.value);
        && logins == old(logins)[m.host := s.host] && diag == s.diag
        && users == (if s.counted then Tallied(old(users), m.user) else old(users))
      ensures m.stamp.Some? && m.action != "opened" && m.action != "closed" ==>
        logins == old(logins) && users == old(users) && diag == None
    {
      if m.stamp.None? {
        return Some(BadTime);
      }
      var t := m.stamp.value;
      if start == 0 {
        start := t;
      }
      end := t;
      diag := None;
      var ok := false;
      if m.action == "opened" {
        ok, diag := OpenSess(m.host, m.pid, t);
      } else if m.action == "closed" {
        ok, diag := CloseSess(m.host, m.pid, t);
      }
      if ok {
        AddUser(m.user);
      }
    }

    /** `openSess`. A host seen for the first time starts from `EmptyHost`
        (line 74); it is stored together with the result. */
    method OpenSess(host: string, pid: nat, t: int) returns (ok: bool, diag: Option<Diag>)
      requires HostsTracked()
      modifies this
      ensures HostsTracked()
      ensures var s := OpenHost(HostOf(old(logins), host), pid, t);
        ok == s.counted && diag == s.diag && logins == old(logins)[host := s.host]
      ensures Total(SessionsOf(logins)) == Total(SessionsOf(old(logins))) + (if ok then 1 else 0)
      ensures host in logins && logins[host].sessions >= 1
      ensures users == old(users) && start == old(start) && end == old(end)
    {
      var s := OpenStep(HostOf(logins, host), pid, t);
      OpenLogins(logins, host, pid, t);
      logins := logins[host := s.host];
      ok, diag := s.counted, s.diag;
    }

    /** `closeSess`. A host seen for the first time starts from `EmptyHost`
        (line 97); it is stored together with the result. */
    method CloseSess(host: string, pid: nat, t: int) returns (ok: bool, diag: Option<Diag>)
      requires HostsTracked()
      modifies this
      ensures HostsTracked()
      ensures var s := CloseHost(HostOf(old(logins), host), pid, t);
        ok == s.counted && diag == s.diag && logins == old(logins)[host := s.host]
      ensures Total(SessionsOf(logins)) == Total(SessionsOf(old(logins))) + (if ok then 1 else 0)
      ensures host in logins && logins[host].sessions >= 1
      ensures users == old(users) && start == old(start) && end == old(end)
    {
      var s := CloseStep(HostOf(logins, host), pid, t);
      CloseLogins(logins, host, pid, t);
      logins := logins[host := s.host];
      ok, diag := s.counted, s.diag;
    }

    /** `addUser`. */
    method AddUser(user: string)
      modifies this
      ensures users == Tallied(old(users), user)
      ensures logins == old(logins) && start == old(start) && end == old(end)
    {
      if user !in users {
        users := users[user := 1];
      } else {
        users := users[user := users[user] + 1];
      }
    }

    /** `closeLogs`: every record still active is ended at `end`, and the
        time since its start is added to its host's `totTime`. */
    method CloseLogs()
      requires Balanced()
      modifies this
      ensures Balanced()
      ensures logins == FinalLogins(old(logins), end)
      ensures Settled(logins)
      ensures users == old(users) && start == old(start) && end == old(end)
    {
      FinalIdempotent(logins, end);
      logins := FinalizeAll(logins, end);
    }
  }

  /** The main program up to the report: every line is read, then the log
      is closed. The report can then divide each host's total by its
      session count. */
  method Report(lines: seq<Option<Match>>) returns (g: Generator)
    ensures g.Balanced() && Settled(g.logins)
  {
    g := new Generator();
    for i := 0 to |lines|
      invariant g.Valid()
    {
      var _ := g.ReadLine(lines[i]);
    }
    g.CloseLogs();
  }

  /** An open at `t1` and its close at `t2` for a new pid on a new host:
      the open counts one session, the matched close counts none, removes
      the record and charges `t2 - t1`. */
  lemma OneSession(pid: nat, t1: int, t2: int)
    ensures var o := OpenHost(EmptyHost, pid, t1);
      var c := CloseHost(o.host, pid, t2);
      && o.counted && !c.counted && c.diag == None
      && c.host == HostLog(map[pid := PidLog(1, [])], 1, t2 - t1)
  {
    var o := OpenHost(EmptyHost, pid, t1);
    assert o.host.pids[pid].recs[0].active;
    var c := CloseHost(o.host, pid, t2);
    assert c.host.pids.Keys == {pid};
    assert c.host.pids[pid] == PidLog(1, []);
    assert c.host.pids == map[pid := PidLog(1, [])];
  }
}
