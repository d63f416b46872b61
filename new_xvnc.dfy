/** new_xvnc.py: the later variant of `xvnc_Generator`.

    `openSess` and `addUser` are those of xvnc.py. The differences are in
    the other operations: a close for an unseen pid stores an inactive
    placeholder record, a matched close ends its record but KEEPS it in the
    list, `closeLogs` charges the records still active without ending them,
    and a time that does not parse is not skipped: `timeEp` is then never
    assigned and reading it at line 36 or 37 raises, which ends the program.
    Records are therefore never removed, and every pid's counter equals the
    length of its record list.
 */
module NewXvnc {
  import opened Sums
  import opened Sessions

  /** The record a close for an unseen pid stores: no start, ended at `t`. */
  function Placeholder(t: int): Rec {
    Rec(None, Some(t), false)
  }

  /** `closeSess` on the entry of the event's host (`EmptyHost` when the
      host is new). */
  function CloseHost(h: HostLog, pid: nat, t: int): (s: Step)
    ensures pid !in h.pids ==>
      && s.counted && s.diag == None
      && s.host.sessions == h.sessions + 1 && s.host.totTime == h.totTime
      && s.host.pids == h.pids[pid := PidLog(1, [Placeholder(t)])]
    ensures pid in h.pids && !HasActive(h.pids[pid].recs) ==>
      s == Step(false, Some(AlreadyClosed), h)
    ensures pid in h.pids && HasActive(h.pids[pid].recs) ==>
      var pl := h.pids[pid];
      var i := FirstActive(pl.recs);
      && !s.counted && s.diag == None
      && s.host.sessions == h.sessions
      && s.host.totTime == h.totTime + (t - StartOr0(pl.recs[i]))
      && s.host.pids == h.pids[pid := PidLog(pl.count, pl.recs[i := Rec(pl.recs[i].start, Some(t), false)])]
  {
    if pid !in h.pids then
      Step(true, None, HostLog(h.pids[pid := PidLog(1, [Placeholder(t)])], h.sessions + 1, h.totTime))
    else
      var pl := h.pids[pid];
      if HasActive(pl.recs) then
        var i := FirstActive(pl.recs);
        var item := Rec(pl.recs[i].start, Some(t), false);
        Step(false, None,
             HostLog(h.pids[pid := PidLog(pl.count, pl.recs[i := item])],
                     h.sessions, h.totTime + (t - StartOr0(pl.recs[i]))))
      else
        Step(false, Some(AlreadyClosed), h)
  }

  /** `closeSess` on one host's entry: the scan for the first active
      record, which is ended in place and charged. */
  method CloseStep(h: HostLog, pid: nat, t: int) returns (s: Step)
    ensures s == CloseHost(h, pid, t)
  {
    if pid !in h.pids {
      return Step(true, None, HostLog(h.pids[pid := PidLog(1, [Placeholder(t)])], h.sessions + 1, h.totTime));
    }
    var pl := h.pids[pid];
    var i := ScanActive(pl.recs);
    if i == -1 {
      // "pid already closed" is written to standard error
      return Step(false, Some(AlreadyClosed), h);
    }
    var item := Rec(pl.recs[i].start, Some(t), false);
    s := Step(false, None,
              HostLog(h.pids[pid := PidLog(pl.count, pl.recs[i := item])],
                      h.sessions, h.totTime + (t - StartOr0(pl.recs[i]))));
  }

  // ---------------------------------------------------------------------
  // The invariant kept while lines are read.

  /** At most one record of a list is active. */
  predicate AtMostOneActive(recs: seq<Rec>) {
    forall i, j | 0 <= i < j < |recs| :: !(recs[i].active && recs[j].active)
  }

  /** A pid's counter is the length of its record list, which is never
      empty, and at most one of its records is active. */
  predicate PidShape(pl: PidLog) {
    pl.count == |pl.recs| && |pl.recs| >= 1 && AtMostOneActive(pl.recs)
  }

  /** Every pid is in shape and the host's counter is the sum of its pid
      counters. */
  ghost predicate Tracked(h: HostLog) {
    && (forall p | p in h.pids :: PidShape(h.pids[p]))
    && h.sessions == Total(CountsOf(h.pids))
  }

  /** A tracked host that has seen a pid has a positive session counter. */
  lemma TrackedSessions(h: HostLog)
    requires Tracked(h)
    ensures h.sessions >= 0
    ensures h.pids != map[] ==> h.sessions >= 1
  {
    TotalNonneg(CountsOf(h.pids));
    if h.pids != map[] {
      var p :| p in h.pids;
      TotalPositive(CountsOf(h.pids), p);
    }
  }

  /** `openSess` keeps the invariant: the appended record is the only
      active one, and the counter grows with the list. */
  lemma OpenTracked(h: HostLog, pid: nat, t: int)
    requires Tracked(h)
    ensures var s := OpenHost(h, pid, t);
      && Tracked(s.host)
      && s.host.sessions == h.sessions + (if s.counted then 1 else 0)
      && s.host.sessions >= 1
  {
    var s := OpenHost(h, pid, t);
    TrackedSessions(h);
    if s.counted {
      var recs := s.host.pids[pid].recs;
      assert AtMostOneActive(recs) by {
        if pid in h.pids {
          var old_ := h.pids[pid].recs;
          assert recs == old_ + [Opened(t)];
          forall i, j | 0 <= i < j < |recs| ensures !(recs[i].active && recs[j].active) {
            if j < |old_| {
              assert recs[i] == old_[i] && recs[j] == old_[j];
            } else {
              assert recs[i] == old_[i];
            }
          }
        }
      }
      assert s.host.pids == h.pids[pid := s.host.pids[pid]];
      CountTotalUpdate(h.pids, pid, s.host.pids[pid]);
    }
  }

  /** `closeSess` keeps the invariant; a matched close leaves the pid with
      no active record and the same number of records. */
  lemma CloseTracked(h: HostLog, pid: nat, t: int)
    requires Tracked(h)
    ensures var s := CloseHost(h, pid, t);
      && Tracked(s.host)
      && s.host.sessions == h.sessions + (if s.counted then 1 else 0)
      && s.host.sessions >= 1
      && (forall p | p in h.pids :: p in s.host.pids && |s.host.pids[p].recs| == |h.pids[p].recs|)
    ensures pid in h.pids && HasActive(h.pids[pid].recs) ==>
      !HasActive(CloseHost(h, pid, t).host.pids[pid].recs)
  {
    var s := CloseHost(h, pid, t);
    TrackedSessions(h);
    if pid !in h.pids {
      CountTotalUpdate(h.pids, pid, s.host.pids[pid]);
    } else if HasActive(h.pids[pid].recs) {
      var old_ := h.pids[pid].recs;
      var i := FirstActive(old_);
      var recs := s.host.pids[pid].recs;
      assert !HasActive(recs) by {
        forall k | 0 <= k < |recs| && k != i ensures !recs[k].active {
          assert recs[k] == old_[k];
          if i < k {
            assert old_[i].active;
          }
        }
        assert !recs[i].active;
      }
      assert s.host.pids == h.pids[pid := s.host.pids[pid]];
      CountTotalUpdate(h.pids, pid, s.host.pids[pid]);
    }
  }

  /** `openSess` on the whole `logins` dictionary. */
  lemma OpenLogins(logins: map<string, HostLog>, host: string, pid: nat, t: int)
    requires forall h | h in logins :: Tracked(logins[h])
    ensures var s := OpenHost(HostOf(logins, host), pid, t);
      var after := logins[host := s.host];
      && (forall h | h in after :: Tracked(after[h]))
      && after[host].sessions >= 1
      && Total(SessionsOf(after)) == Total(SessionsOf(logins)) + (if s.counted then 1 else 0)
  {
    var s := OpenHost(HostOf(logins, host), pid, t);
    OpenTracked(HostOf(logins, host), pid, t);
    SessionTotalUpdate(logins, host, s.host);
  }

  /** `closeSess` on the whole `logins` dictionary. */
  lemma CloseLogins(logins: map<string, HostLog>, host: string, pid: nat, t: int)
    requires forall h | h in logins :: Tracked(logins[h])
    ensures var s := CloseHost(HostOf(logins, host), pid, t);
      var after := logins[host := s.host];
      && (forall h | h in after :: Tracked(after[h]))
      && after[host].sessions >= 1
      && Total(SessionsOf(after)) == Total(SessionsOf(logins)) + (if s.counted then 1 else 0)
  {
    var s := CloseHost(HostOf(logins, host), pid, t);
    CloseTracked(HostOf(logins, host), pid, t);
    SessionTotalUpdate(logins, host, s.host);
  }

  // ---------------------------------------------------------------------
  // closeLogs

  /** A host after `closeLogs`: what every active record has been open
      until `e` is added to `totTime`; the records are left as they are. */
  ghost function FinalHost(h: HostLog, e: int): HostLog {
    HostLog(h.pids, h.sessions, h.totTime + Total(DueOf(h.pids, e)))
  }

  ghost function FinalLogins(logins: map<string, HostLog>, e: int): map<string, HostLog> {
    map h | h in logins :: FinalHost(logins[h], e)
  }

  /** `closeLogs` changes only the hosts' `totTime`. */
  lemma FinalKeepsCounters(logins: map<string, HostLog>, e: int)
    ensures var r := FinalLogins(logins, e);
      && r.Keys == logins.Keys
      && (forall h | h in logins :: r[h].pids == logins[h].pids && r[h].sessions == logins[h].sessions)
      && SessionsOf(r) == SessionsOf(logins)
  {
  }

  /** A list owes a positive amount when its active records all started no
      later than `e` and one of them strictly earlier. */
  lemma {:induction false} DuePositive(recs: seq<Rec>, e: int, k: nat)
    requires forall i | 0 <= i < |recs| :: recs[i].active ==> StartOr0(recs[i]) <= e
    requires k < |recs| && recs[k].active && StartOr0(recs[k]) < e
    ensures Due(recs, e) > 0
  {
    var init := recs[..|recs| - 1];
    if k == |recs| - 1 {
      DueNonneg(init, e);
    } else {
      assert init[k] == recs[k];
      DuePositive(init, e, k);
    }
  }

  /** `closeLogs` is not idempotent: on a host with a record still active
      since before `e` (and none started after `e`), a second call charges
      the same amount again, so it changes the total. */
  lemma CloseLogsTwice(h: HostLog, e: int, pid: nat, k: nat)
    requires forall p, i | p in h.pids && 0 <= i < |h.pids[p].recs| ::
      h.pids[p].recs[i].active ==> StartOr0(h.pids[p].recs[i]) <= e
    requires pid in h.pids && k < |h.pids[pid].recs|
    requires h.pids[pid].recs[k].active && StartOr0(h.pids[pid].recs[k]) < e
    ensures FinalHost(FinalHost(h, e), e).totTime == h.totTime + 2 * Total(DueOf(h.pids, e))
    ensures FinalHost(FinalHost(h, e), e) != FinalHost(h, e)
    ensures FinalHost(h, e).pids == h.pids
  {
    forall p | p in h.pids ensures DueOf(h.pids, e)[p] >= 0 {
      DueNonneg(h.pids[p].recs, e);
    }
    DuePositive(h.pids[pid].recs, e, k);
    TotalPositive(DueOf(h.pids, e), pid);
  }

  /** The loop over one host's pids in `closeLogs`. */
  method FinalizeHost(h: HostLog, e: int) returns (r: HostLog)
    ensures r == FinalHost(h, e)
  {
    var todo := h.pids.Keys;
    var tot := h.totTime;
    while todo != {}
      invariant todo <= h.pids.Keys
      invariant tot == h.totTime + Total(DueOf(h.pids - todo, e))
      decreases todo
    {
      var p :| p in todo;
      var due := SumDue(h.pids[p].recs, e);
      assert DueOf(h.pids - (todo - {p}), e) == DueOf(h.pids - todo, e)[p := due];
      TotalUpdate(DueOf(h.pids - todo, e), p, due);
      tot := tot + due;
      todo := todo - {p};
    }
    assert h.pids - {} == h.pids;
    r := HostLog(h.pids, h.sessions, tot);
  }

  /** The loop over the hosts in `closeLogs`. */
  method FinalizeAll(logins: map<string, HostLog>, e: int) returns (r: map<string, HostLog>)
    ensures r == FinalLogins(logins, e)
  {
    var todo := logins.Keys;
    r := logins;
    while todo != {}
      invariant todo <= logins.Keys && r.Keys == logins.Keys
      invariant forall h | h in logins && h !in todo :: r[h] == FinalHost(logins[h], e)
      invariant forall h | h in todo :: r[h] == logins[h]
      decreases todo
    {
      var h :| h in todo;
      var fin := FinalizeHost(r[h], e);
      r := r[h := fin];
      todo := todo - {h};
    }
  }

  // ---------------------------------------------------------------------
  // The tracker object.

  /** A matched line whose time does not parse: `addExp` raises on it. */
  predicate Fails(m: Option<Match>) {
    m.Some? && m.value.stamp.None?
  }

  class Generator {
    var logins: map<string, HostLog>
    var users: map<string, int>
    var start: int
    var end: int

    ghost predicate HostsTracked()
      reads this
    {
      forall h | h in logins :: Tracked(logins[h])
    }

    /** Every host has at least one session, and the user counts add up to
        the host session counts. */
    ghost predicate Balanced()
      reads this
    {
      && (forall h | h in logins :: logins[h].sessions >= 1)
      && Total(users) == Total(SessionsOf(logins))
    }

    ghost predicate Valid()
      reads this
    {
      HostsTracked() && Balanced()
    }

    constructor ()
      ensures Valid()
      ensures logins == map[] && users == map[] && start == 0 && end == 0
    {
      logins, users := map[], map[];
      start, end := 0, 0;
      assert SessionsOf(map[]) == map[];
    }

    /** `readLine`, given the outcome of the pattern search. */
    method ReadLine(m: Option<Match>) returns (crashed: bool, diag: Option<Diag>)
      requires Valid()
      modifies this
      ensures Valid()
      ensures crashed <==> Fails(m)
      ensures m.None? ==> diag == None && unchanged(this)
      ensures m.Some? && m.value.stamp.None? ==> diag == Some(BadTime) && unchanged(this)
      ensures m.Some? && m.value.stamp.Some? ==>
        && start == (if old(start) == 0 then m.value.stamp.value else old(start))
        && end == m.value.stamp.value
      ensures m.Some? && m.value.stamp.Some? && m.value.action == "opened" ==>
        var s := OpenHost(HostOf(old(logins), m.value.host), m.value.pid, m.value.stamp.value);
        && logins == old(logins)[m.value.host := s.host] && diag == s.diag
        && users == (if s.counted then Tallied(old(users), m.value.user) else old(users))
      ensures m.Some? && m.value.stamp.Some? && m.value.action == "closed" ==>
        var s := CloseHost(HostOf(old(logins), m.value.host), m.value.pid, m.value.stamp.value);
        && logins == old(logins)[m.value.host := s.host] && diag == s.diag
        && users == (if s.counted then Tallied(old(users), m.value.user) else old(users))
      ensures m.Some? && m.value.stamp.Some? && m.value.action != "opened" && m.value.action != "closed" ==>
        logins == old(logins) && users == old(users) && diag == None
    {
      crashed, diag := false, None;
      if m.Some? {
        crashed, diag := AddExp(m.value);
      }
    }

    /** `addExp`. When the time does not parse, the message is written and
        the read of the unassigned `timeEp` raises: `crashed` is set and
        nothing has changed. */
    method AddExp(m: Match) returns (crashed: bool, diag: Option<Diag>)
      requires Valid()
      modifies this
      ensures Valid()
      ensures crashed <==> m.stamp.None?
      ensures m.stamp.None? ==> diag == Some(BadTime) && unchanged(this)
      ensures m.stamp.Some? ==>
        && start == (if old(start) == 0 then m.stamp.value else old(start))
        && end == m.stamp.value
      ensures m.stamp.Some? && m.action == "opened" ==>
        var s := OpenHost(HostOf(old(logins), m.host), m.pid, m.stamp.value);
        && logins == old(logins)[m.host := s.host] && diag == s.diag
        && users == (if s.counted then Tallied(old(users), m.user) else old(users))
      ensures m.stamp.Some? && m.action == "closed" ==>
        var s := CloseHost(HostOf(old(logins), m.host), m.pid, m.stamp.value);
        && logins == old(logins)[m.host := s.host] && diag == s.diag
        && users == (if s.counted then Tallied(old(users), m.user) else old(users))
      ensures m.stamp.Some? && m.action != "opened" && m.action != "closed" ==>
        logins == old(logins) && users == old(users) && diag == None
    {
      if m.stamp.None? {
        // "unable to parse time" is written to standard error, then
        // `timeEp` is read unassigned
        return true, Some(BadTime);
      }
      crashed := false;
      var t := m.stamp.value;
      if start == 0 {
        start := t;
      }
      end := t;
      diag := None;
      var ok := false;
      if m.action == "opened" {
        ok, diag := OpenSess(m.host, m.pid, t);
      } else if m.action == "closed" {
        ok, diag := CloseSess(m.host, m.pid, t);
      }
      if ok {
        AddUser(m.user);
      }
    }

    /** `openSess`, as in xvnc.py. */
    method OpenSess(host: string, pid: nat, t: int) returns (ok: bool, diag: Option<Diag>)
      requires HostsTracked()
      modifies this
      ensures HostsTracked()
      ensures var s := OpenHost(HostOf(old(logins), host), pid, t);
        ok == s.counted && diag == s.diag && logins == old(logins)[host := s.host]
      ensures Total(SessionsOf(logins)) == Total(SessionsOf(old(logins))) + (if ok then 1 else 0)
      ensures host in logins && logins[host].sessions >= 1
      ensures users == old(users) && start == old(start) && end == old(end)
    {
      var s := OpenStep(HostOf(logins, host), pid, t);
      OpenLogins(logins, host, pid, t);
      logins := logins[host := s.host];
      ok, diag := s.counted, s.diag;
    }

    /** `closeSess`. A host seen for the first time starts from `EmptyHost`
        (line 65). */
    method CloseSess(host: string, pid: nat, t: int) returns (ok: bool, diag: Option<Diag>)
      requires HostsTracked()
      modifies this
      ensures HostsTracked()
      ensures var s := CloseHost(HostOf(old(logins), host), pid, t);
        ok == s.counted && diag == s.diag && logins == old(logins)[host := s.host]
      ensures Total(SessionsOf(logins)) == Total(SessionsOf(old(logins))) + (if ok then 1 else 0)
      ensures host in logins && logins[host].sessions >= 1
      ensures users == old(users) && start == old(start) && end == old(end)
    {
      var s := CloseStep(HostOf(logins, host), pid, t);
      CloseLogins(logins, host, pid, t);
      logins := logins[host := s.host];
      ok, diag := s.counted, s.diag;
    }

    /** `addUser`. */
    method AddUser(user: string)
      modifies this
      ensures users == Tallied(old(users), user)
      ensures logins == old(logins) && start == old(start) && end == old(end)
    {
      if user !in users {
        users := users[user := 1];
      } else {
        users := users[user := users[user] + 1];
      }
    }

    /** `closeLogs`: the time every active record has been open until `end`
        is added to its host's `totTime`; the records stay active. */
    method CloseLogs()
      requires Valid()
      modifies this
      ensures Valid()
      ensures logins == FinalLogins(old(logins), end)
      ensures users == old(users) && start == old(start) && end == old(end)
    {
      FinalKeepsCounters(logins, end);
      logins := FinalizeAll(logins, end);
    }
  }

  /** The main program up to the report. The first matched line whose time
      does not parse ends the program before `closeLogs`; otherwise every
      line is read and the log is closed, and the report can divide each
      host's total by its session count. */
  method Report(lines: seq<Option<Match>>) returns (g: Generator, crashed: bool)
    ensures g.Valid()
    ensures crashed <==> exists k | 0 <= k < |lines| :: Fails(lines[k])
  {
    g := new Generator();
    var i := 0;
    while i < |lines|
      invariant 0 <= i <= |lines| && g.Valid()
      invariant forall k | 0 <= k < i :: !Fails(lines[k])
    {
      var c, _ := g.ReadLine(lines[i]);
      if c {
        return g, true;
      }
      i := i + 1;
    }
    g.CloseLogs();
    crashed := false;
  }
}
