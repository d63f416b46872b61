/** What the two `xvnc_Generator` classes (xvnc.py and new_xvnc.py) share:
    the shape of their `logins` and `users` dictionaries, the fields a
    parsed log line supplies, `openSess` (word for word the same in both),
    the scan for an active record, `addUser`, and the durations that
    `closeLogs` charges to a host.
 */
module Sessions {
  import opened Sums

  datatype Option<T> = None | Some(value: T)

  /** A record `{'start': .., 'end': .., 'active': ..}`; `None` stands for
      Python's `False` (no start seen, or not yet ended). */
  datatype Rec = Rec(start: Option<int>, end: Option<int>, active: bool)

  /** `logins[host]['pids'][pid]`, the pair `[count, records]`. */
  datatype PidLog = PidLog(count: int, recs: seq<Rec>)

  /** `logins[host]`, the dictionary `{'pids': .., 'sessions': .., 'totTime': ..}`. */
  datatype HostLog = HostLog(pids: map<nat, PidLog>, sessions: int, totTime: int)

  /** The named groups of a log line that matched the session pattern, as
      `addExp` uses them. `stamp` is the epoch time `time.mktime` gives for
      the month, day and time of day, or `None` when they do not parse. */
  datatype Match = Match(host: string, pid: nat, action: string, user: string, stamp: Option<int>)

  /** The messages written to standard error. */
  datatype Diag = BadTime | AlreadyActive | AlreadyClosed

  /** What `openSess` or `closeSess` does to one host's entry: its boolean
      result, the message it writes, and the entry afterwards. */
  datatype Step = Step(counted: bool, diag: Option<Diag>, host: HostLog)

  /** The entry created for a host seen for the first time. */
  const EmptyHost := HostLog(map[], 0, 0)

  function HostOf(logins: map<string, HostLog>, host: string): HostLog {
    if host in logins then logins[host] else EmptyHost
  }

  /** The record an accepted open appends. */
  function Opened(t: int): Rec {
    Rec(Some(t), None, true)
  }

  /** A record's start in arithmetic: Python's `False` counts as 0. */
  function StartOr0(r: Rec): int {
    if r.start.Some? then r.start.value else 0
  }

  predicate HasActive(recs: seq<Rec>) {
    exists i | 0 <= i < |recs| :: recs[i].active
  }

  /** The active record a `for item in ...: if item['active']` loop stops at. */
  function FirstActive(recs: seq<Rec>): (i: nat)
    requires HasActive(recs)
    ensures i < |recs| && recs[i].active
    ensures forall j | 0 <= j < i :: !recs[j].active
  {
    if recs[0].active then 0
    else
      assert HasActive(recs[1..]) by {
        var k :| 0 <= k < |recs| && recs[k].active;
        assert recs[1..][k - 1].active;
      }
      1 + FirstActive(recs[1..])
  }

  /** The scan over a pid's records shared by `openSess` and `closeSess`:
      the index of the first active record, or -1 when there is none. */
  method ScanActive(recs: seq<Rec>) returns (i: int)
    ensures i == -1 <==> !HasActive(recs)
    ensures i != -1 ==> 0 <= i < |recs| && i == FirstActive(recs)
  {
    i := 0;
    while i < |recs|
      invariant 0 <= i <= |recs|
      invariant forall j | 0 <= j < i :: !recs[j].active
    {
      if recs[i].active {
        return;
      }
      i := i + 1;
    }
    i := -1;
  }

  /** `openSess`, the same in both classes, on the entry of the event's host
      (`EmptyHost` when the host is new). */
  function OpenHost(h: HostLog, pid: nat, t: int): (s: Step)
    ensures s.counted <==> !(pid in h.pids && HasActive(h.pids[pid].recs))
    ensures !s.counted ==> s.host == h && s.diag == Some(AlreadyActive)
    ensures s.counted ==>
      && s.diag == None
      && s.host.sessions == h.sessions + 1
      && s.host.totTime == h.totTime
      && s.host.pids.Keys == h.pids.Keys + {pid}
      && s.host.pids[pid].count == (if pid in h.pids then h.pids[pid].count else 0) + 1
      && s.host.pids[pid].recs == (if pid in h.pids then h.pids[pid].recs else []) + [Opened(t)]
      && forall p | p in h.pids && p != pid :: s.host.pids[p] == h.pids[p]
  {
    if pid !in h.pids then
      Step(true, None, HostLog(h.pids[pid := PidLog(1, [Opened(t)])], h.sessions + 1, h.totTime))
    else if HasActive(h.pids[pid].recs) then
      Step(false, Some(AlreadyActive), h)
    else
      var pl := h.pids[pid];
      Step(true, None, HostLog(h.pids[pid := PidLog(pl.count + 1, pl.recs + [Opened(t)])], h.sessions + 1, h.totTime))
  }

  /** `openSess` on one host's entry, with the scan over the pid's records. */
  method OpenStep(h: HostLog, pid: nat, t: int) returns (s: Step)
    ensures s == OpenHost(h, pid, t)
  {
    if pid !in h.pids {
      return Step(true, None, HostLog(h.pids[pid := PidLog(1, [Opened(t)])], h.sessions + 1, h.totTime));
    }
    var pl := h.pids[pid];
    var i := ScanActive(pl.recs);
    if i != -1 {
      // "pid already active" is written to standard error
      return Step(false, Some(AlreadyActive), h);
    }
    s := Step(true, None, HostLog(h.pids[pid := PidLog(pl.count + 1, pl.recs + [Opened(t)])], h.sessions + 1, h.totTime));
  }

  /** The loop `closeLogs` in new_xvnc.py runs over one list: the time each
      active record has been open until `e`. */
  method SumDue(recs: seq<Rec>, e: int) returns (due: int)
    ensures due == Due(recs, e)
  {
    due := 0;
    for i := 0 to |recs|
      invariant due == Due(recs[..i], e)
    {
      assert recs[..i + 1][..i] == recs[..i];
      if recs[i].active {
        due := due + (e - StartOr0(recs[i]));
      }
    }
    assert recs[..|recs|] == recs;
  }

  /** `addUser`: the user's count, created at 1 or incremented. */
  function Tallied(users: map<string, int>, user: string): (r: map<string, int>)
    ensures r.Keys == users.Keys + {user}
    ensures r[user] == (if user in users then users[user] else 0) + 1
    ensures forall u | u in users && u != user :: r[u] == users[u]
    ensures Total(r) == Total(users) + 1
  {
    TotalUpdate(users, user, if user in users then users[user] + 1 else 1);
    users[user := if user in users then users[user] + 1 else 1]
  }

  /** The per-host session counters. */
  ghost function SessionsOf(logins: map<string, HostLog>): map<string, int> {
    map h | h in logins :: logins[h].sessions
  }

  /** The per-pid counters `logins[host]['pids'][pid][0]`. */
  ghost function CountsOf(pids: map<nat, PidLog>): map<nat, int> {
    map p | p in pids :: pids[p].count
  }

  /** Replacing one host's entry changes the session total by the change
      in that host's counter. */
  lemma SessionTotalUpdate(logins: map<string, HostLog>, host: string, h: HostLog)
    ensures Total(SessionsOf(logins[host := h]))
         == Total(SessionsOf(logins)) - HostOf(logins, host).sessions + h.sessions
  {
    assert SessionsOf(logins[host := h]) == SessionsOf(logins)[host := h.sessions];
    TotalUpdate(SessionsOf(logins), host, h.sessions);
  }

  /** Replacing one pid's entry changes the counter total by the change in
      that pid's counter. */
  lemma CountTotalUpdate(pids: map<nat, PidLog>, pid: nat, pl: PidLog)
    ensures Total(CountsOf(pids[pid := pl]))
         == Total(CountsOf(pids)) - (if pid in pids then pids[pid].count else 0) + pl.count
  {
    assert CountsOf(pids[pid := pl]) == CountsOf(pids)[pid := pl.count];
    TotalUpdate(CountsOf(pids), pid, pl.count);
  }

  // ---------------------------------------------------------------------
  // closeLogs: what finishing the log charges for records still active.

  /** What `closeLogs` adds for one record: `self.end - item['start']` if
      it is active, nothing otherwise. */
  function Pending(r: Rec, e: int): int {
    if r.active then e - StartOr0(r) else 0
  }

  /** The sum of `Pending` over a record list, accumulated front to back. */
  function Due(recs: seq<Rec>, e: int): int {
    if recs == [] then 0 else Due(recs[..|recs| - 1], e) + Pending(recs[|recs| - 1], e)
  }

  /** What `closeLogs` adds to a host's `totTime`: `Due` of every pid. */
  ghost function DueOf(pids: map<nat, PidLog>, e: int): map<nat, int> {
    map p | p in pids :: Due(pids[p].recs, e)
  }

  /** A list with no active record owes nothing. */
  lemma {:induction false} DueNoActive(recs: seq<Rec>, e: int)
    requires !HasActive(recs)
    ensures Due(recs, e) == 0
  {
    if recs != [] {
      var init := recs[..|recs| - 1];
      assert !HasActive(init) by {
        forall i | 0 <= i < |init| ensures !init[i].active {
          assert init[i] == recs[i];
        }
      }
      DueNoActive(init, e);
    }
  }

  /** A list whose active records all started no later than `e` owes a
      non-negative amount. */
  lemma {:induction false} DueNonneg(recs: seq<Rec>, e: int)
    requires forall i | 0 <= i < |recs| :: recs[i].active ==> StartOr0(recs[i]) <= e
    ensures Due(recs, e) >= 0
  {
    if recs != [] {
      DueNonneg(recs[..|recs| - 1], e);
    }
  }

  /** The record `closeLogs` in xvnc.py leaves behind: an active record is
      deactivated and ended at `e`. */
  function Finish(r: Rec, e: int): Rec {
    if r.active then Rec(r.start, Some(e), false) else r
  }

  function FinalRecs(recs: seq<Rec>, e: int): (r: seq<Rec>)
    ensures |r| == |recs| && !HasActive(r)
  {
    seq(|recs|, i requires 0 <= i < |recs| => Finish(recs[i], e))
  }
}
