/** oldfiles/xvnc_orig.py: the earlier report script.

    The main loop tallies, per host and user, the opens and the start and
    end stamps of gdm sessions; `calcTotalSessionTime` then turns one
    pair's lists of start and end times into a total duration, pairing
    each start with the first remaining end of the same pid and applying a
    fixed 23:20:00 cut-off (the time the daily job is assumed to run) to
    sessions whose other end is missing. Times are seconds of the day
    (`h*3600 + m*60 + s`, what `timedelta` holds after `strptime`).
 */
module XvncOrig {
  import Sessions

  /** `[logtime, date, pid]`; the pid is kept as the matched text. */
  datatype Stamp = Stamp(secs: int, date: string, pid: string)

  /** 23:20:00, the assumed time of the daily run. */
  const Cutoff: int := 84000
  /** `timedelta(hours=23, minutes=59, seconds=60)`. */
  const Day: int := 86400

  // ---------------------------------------------------------------------
  // pidIndex

  /** The index of the first stamp with pid `pid`, or -1. */
  function IndexOf(ts: seq<Stamp>, pid: string): (i: int)
    ensures -1 <= i < |ts|
    ensures i == -1 <==> forall j | 0 <= j < |ts| :: ts[j].pid != pid
    ensures i != -1 ==> ts[i].pid == pid && forall j | 0 <= j < i :: ts[j].pid != pid
  {
    if ts == [] then -1
    else if ts[0].pid == pid then 0
    else
      var k := IndexOf(ts[1..], pid);
      assert forall j | 1 <= j < |ts| :: ts[j] == ts[1..][j - 1];
      if k == -1 then -1 else k + 1
  }

  /** `pidIndex`: a scan with a counter, returning at the first match. */
  method PidIndex(deltas: seq<Stamp>, pid: string) returns (i: int)
    ensures i == IndexOf(deltas, pid)
  {
    i := 0;
    while i < |deltas|
      invariant 0 <= i <= |deltas|
      invariant forall j | 0 <= j < i :: deltas[j].pid != pid
    {
      if deltas[i].pid == pid {
        return;
      }
      i := i + 1;
    }
    i := -1;
  }

  // ---------------------------------------------------------------------
  // calcTotalSessionTime

  /** What a start with no end adds: up to 23:20:00, or up to midnight
      when it started later. */
  function StartOnly(s: int): int {
    if s < Cutoff then Cutoff - s else Day - s
  }

  /** What an end with no start adds: from midnight, or from 23:20:00 when
      it ended later. */
  function EndOnly(e: int): int {
    if e <= Cutoff then e else e - Cutoff
  }

  /** What a start and its matching end add: the difference when the end
      is later on the same date, otherwise the rest of the start's day
      plus the end's time of day. */
  function PairSpan(s: Stamp, e: Stamp): int {
    if e.secs - s.secs > 0 && e.date == s.date then e.secs - s.secs
    else (Day - s.secs) + e.secs
  }

  function SumStarts(starts: seq<Stamp>): int {
    if starts == [] then 0 else StartOnly(starts[0].secs) + SumStarts(starts[1..])
  }

  function SumEnds(ends: seq<Stamp>): int {
    if ends == [] then 0 else EndOnly(ends[0].secs) + SumEnds(ends[1..])
  }

  /** `ends` without its element at `i`. */
  function Without(ends: seq<Stamp>, i: nat): (r: seq<Stamp>)
    requires i < |ends|
    ensures |r| == |ends| - 1
    ensures forall j | 0 <= j < i :: r[j] == ends[j]
    ensures forall j | i <= j < |r| :: r[j] == ends[j + 1]
  {
    ends[..i] + ends[i + 1..]
  }

  /** Starts taken in order, each consuming the first remaining end with
      its pid; what is left of `ends` at the end adds nothing. */
  function Paired(starts: seq<Stamp>, ends: seq<Stamp>): int {
    if starts == [] then 0
    else
      var i := IndexOf(ends, starts[0].pid);
      if i == -1 then StartOnly(starts[0].secs) + Paired(starts[1..], ends)
      else PairSpan(starts[0], ends[i]) + Paired(starts[1..], Without(ends, i))
  }

  /** The total `calcTotalSessionTime` returns. Both lists empty makes its
      first `pop` raise, hence the precondition. */
  function TotalSessionTime(starts: seq<Stamp>, ends: seq<Stamp>): int
    requires |starts| + |ends| > 0
  {
    if ends == [] then SumStarts(starts)
    else if starts == [] then SumEnds(ends)
    else Paired(starts, ends)
  }

  /** What the final `while endt` loop adds when it starts from `endt`
      with `ends` left: `endt` and every remaining end, each as a lone end. */
  function Tail(endt: Sessions.Option<Stamp>, ends: seq<Stamp>): int {
    if endt.Some? then EndOnly(endt.value.secs) + SumEnds(ends) else 0
  }

  /** `calcTotalSessionTime`, with the lists popped from the front as in
      the source. In the pairing case `endt` holds the end just paired and
      is reset to False in both branches, so the final `while endt` loop
      starts with nothing and adds nothing. */
  method CalcTotalSessionTime(starts: seq<Stamp>, ends: seq<Stamp>) returns (total: int)
    requires |starts| + |ends| > 0
    ensures total == TotalSessionTime(starts, ends)
  {
    var sd, ed := starts, ends;
    total := 0;
    if |sd| > 0 && |ed| == 0 {
      while sd != []
        invariant total + SumStarts(sd) == SumStarts(starts)
      {
        var st := sd[0];
        sd := sd[1..];
        total := total + StartOnly(st.secs);
      }
      return;
    } else if |sd| == 0 && |ed| > 0 {
      while ed != []
        invariant total + SumEnds(ed) == SumEnds(ends)
      {
        var en := ed[0];
        ed := ed[1..];
        total := total + EndOnly(en.secs);
      }
      return;
    }
    var endt: Sessions.Option<Stamp> := Sessions.None;
    while sd != []
      invariant endt.None?
      invariant total + Paired(sd, ed) == Paired(starts, ends)
    {
      var st := sd[0];
      sd := sd[1..];
      var i := PidIndex(ed, st.pid);
      if i == -1 {
        // a start with no end: the session went on into the next day
        total := total + StartOnly(st.secs);
      } else {
        endt := Sessions.Some(ed[i]);
        ed := Without(ed, i);
        total := total + PairSpan(st, endt.value);
        endt := Sessions.None;
      }
    }
    ghost var paired := total;
    ghost var tail := Tail(endt, ed);
    assert tail == 0;
    while endt.Some?
      invariant total + Tail(endt, ed) == paired + tail
      decreases (if endt.Some? then 1 else 0) + |ed|
    {
      total := total + EndOnly(endt.value.secs);
      if ed == [] {
        endt := Sessions.None;
      } else {
        endt := Sessions.Some(ed[0]);
        ed := ed[1..];
      }
    }
  }

  // ---------------------------------------------------------------------
  // Properties of the total

  /** For a time of day, a lone start adds between 1 second and a whole
      day, a lone end at most 23:20:00, and a pair between 1 second and
      two days (exactly one day when the two times and dates are equal). */
  lemma SpanBounds(s: Stamp, e: Stamp)
    requires 0 <= s.secs < Day && 0 <= e.secs < Day
    ensures 0 < StartOnly(s.secs) <= Day
    ensures 0 <= EndOnly(e.secs) <= Cutoff
    ensures 0 < PairSpan(s, e) < 2 * Day
    ensures e.secs == s.secs ==> PairSpan(s, e) == Day
  {
  }

  /** An end whose pid no start has is never consumed: appending such ends
      does not change the pairing total. */
  lemma {:induction false} UnmatchedEndsIgnored(starts: seq<Stamp>, ends: seq<Stamp>, extra: seq<Stamp>)
    requires forall j, k | 0 <= j < |extra| && 0 <= k < |starts| :: extra[j].pid != starts[k].pid
    ensures Paired(starts, ends + extra) == Paired(starts, ends)
  {
    if starts != [] {
      var pid := starts[0].pid;
      var i := IndexOf(ends, pid);
      var i' := IndexOf(ends + extra, pid);
      assert forall j | 0 <= j < |ends| :: (ends + extra)[j] == ends[j];
      assert forall j | 0 <= j < |extra| :: (ends + extra)[|ends| + j] == extra[j];
      if i == -1 {
        assert forall j | 0 <= j < |ends + extra| :: (ends + extra)[j].pid != pid by {
          forall j | 0 <= j < |ends + extra| ensures (ends + extra)[j].pid != pid {
            if j >= |ends| {
              assert (ends + extra)[j] == extra[j - |ends|];
            }
          }
        }
        assert i' == -1;
      } else {
        assert i' == i;
        assert Without(ends + extra, i) == Without(ends, i) + extra;
      }
      UnmatchedEndsIgnored(starts[1..], if i == -1 then ends else Without(ends, i), extra);
    }
  }

  /** With no end to pair with, every start adds what it adds in the
      starts-only case. */
  lemma {:induction false} PairedNoEnds(starts: seq<Stamp>)
    ensures Paired(starts, []) == SumStarts(starts)
  {
    if starts != [] {
      PairedNoEnds(starts[1..]);
    }
  }

  /** When no end shares a pid with a start, the total is the starts-only
      total: the ends are dropped, not charged as in the ends-only case. */
  lemma NoMatchingPids(starts: seq<Stamp>, ends: seq<Stamp>)
    requires |starts| > 0 && |ends| > 0
    requires forall j, k | 0 <= j < |ends| && 0 <= k < |starts| :: ends[j].pid != starts[k].pid
    ensures TotalSessionTime(starts, ends) == SumStarts(starts)
  {
    UnmatchedEndsIgnored(starts, [], ends);
    assert [] + ends == ends;
    PairedNoEnds(starts);
  }

  /** For times of day, the total is non-negative. */
  lemma {:induction false} PairedNonneg(starts: seq<Stamp>, ends: seq<Stamp>)
    requires forall k | 0 <= k < |starts| :: 0 <= starts[k].secs < Day
    requires forall k | 0 <= k < |ends| :: 0 <= ends[k].secs < Day
    ensures Paired(starts, ends) >= 0
  {
    if starts != [] {
      var i := IndexOf(ends, starts[0].pid);
      if i == -1 {
        PairedNonneg(starts[1..], ends);
      } else {
        PairedNonneg(starts[1..], Without(ends, i));
      }
    }
  }

  // ---------------------------------------------------------------------
  // The main loop's tally

  /** A gdm session line that matched: who, where, and its stamp. */
  datatype Event = Event(host: string, user: string, stamp: Stamp)

  /** A line matching the open pattern, the close pattern, or neither. */
  datatype Line = Open(ev: Event) | Close(ev: Event) | Other

  /** `Logins[host][userid]`: `[count, starts, ends]`. */
  datatype Entry = Entry(count: int, starts: seq<Stamp>, ends: seq<Stamp>)

  predicate ForPair(l: Line, host: string, user: string) {
    !l.Other? && l.ev.host == host && l.ev.user == user
  }

  predicate ForUser(l: Line, user: string) {
    !l.Other? && l.ev.user == user
  }

  /** The stamps of the opens (or the closes) of one host and user, in
      order. */
  function Stamps(lines: seq<Line>, host: string, user: string, opens: bool): seq<Stamp> {
    if lines == [] then []
    else
      var l := lines[|lines| - 1];
      Stamps(lines[..|lines| - 1], host, user, opens)
        + (if ForPair(l, host, user) && l.Open? == opens then [l.ev.stamp] else [])
  }

  /** The first line about one host and user. */
  function FirstForPair(lines: seq<Line>, host: string, user: string): Sessions.Option<Line> {
    if lines == [] then Sessions.None
    else
      var f := FirstForPair(lines[..|lines| - 1], host, user);
      if f.Some? then f
      else if ForPair(lines[|lines| - 1], host, user) then Sessions.Some(lines[|lines| - 1])
      else Sessions.None
  }

  /** The number of opens of one user on any host. */
  function OpenCount(lines: seq<Line>, user: string): nat {
    if lines == [] then 0
    else
      var l := lines[|lines| - 1];
      OpenCount(lines[..|lines| - 1], user) + (if ForUser(l, user) && l.Open? then 1 else 0)
  }

  /** The first line about one user. */
  function FirstForUser(lines: seq<Line>, user: string): Sessions.Option<Line> {
    if lines == [] then Sessions.None
    else
      var f := FirstForUser(lines[..|lines| - 1], user);
      if f.Some? then f
      else if ForUser(lines[|lines| - 1], user) then Sessions.Some(lines[|lines| - 1])
      else Sessions.None
  }

  /** What the main loop holds for a host and user it has seen: every open
      counted, plus one when a close came first; all starts and all ends. */
  function EntryOf(lines: seq<Line>, host: string, user: string): Entry {
    var first := FirstForPair(lines, host, user);
    Entry(|Stamps(lines, host, user, true)| + (if first.Some? && first.value.Close? then 1 else 0),
          Stamps(lines, host, user, true), Stamps(lines, host, user, false))
  }

  /** What the main loop holds in `Users[userid][0]` for a user it has
      seen: every open on any host, plus one when a close came first. */
  function UserCount(lines: seq<Line>, user: string): int {
    var first := FirstForUser(lines, user);
    OpenCount(lines, user) + (if first.Some? && first.value.Close? then 1 else 0)
  }

  /** A host and user the loop has seen hold at least one stamp and a
      positive count, so `calcTotalSessionTime` may be called on them. */
  lemma {:induction false} EntryNonempty(lines: seq<Line>, host: string, user: string)
    requires FirstForPair(lines, host, user).Some?
    ensures var en := EntryOf(lines, host, user);
      && |en.starts| + |en.ends| > 0
      && |en.starts| <= en.count <= |en.starts| + 1
      && en.count >= 1
  {
    var init := lines[..|lines| - 1];
    var l := lines[|lines| - 1];
    if FirstForPair(init, host, user).Some? {
      EntryNonempty(init, host, user);
    } else {
      assert ForPair(l, host, user);
    }
  }

  /** How one more line changes what is held for a host and user. */
  lemma EntryStep(prefix: seq<Line>, l: Line, host: string, user: string)
    ensures var after := prefix + [l];
      var en := EntryOf(prefix, host, user);
      && (!ForPair(l, host, user) ==>
            FirstForPair(after, host, user) == FirstForPair(prefix, host, user)
            && EntryOf(after, host, user) == en)
      && (ForPair(l, host, user) ==> FirstForPair(after, host, user).Some?)
      && (ForPair(l, host, user) && l.Open? ==>
            EntryOf(after, host, user)
              == if FirstForPair(prefix, host, user).Some? then Entry(en.count + 1, en.starts + [l.ev.stamp], en.ends)
                 else Entry(1, [l.ev.stamp], []))
      && (ForPair(l, host, user) && l.Close? ==>
            EntryOf(after, host, user)
              == if FirstForPair(prefix, host, user).Some? then Entry(en.count, en.starts, en.ends + [l.ev.stamp])
                 else Entry(1, [], [l.ev.stamp]))
  {
    var after := prefix + [l];
    assert after[..|after| - 1] == prefix;
    if FirstForPair(prefix, host, user).None? {
      EmptyBeforeFirst(prefix, host, user);
    }
  }

  /** Before the first line about a host and user, nothing is held. */
  lemma {:induction false} EmptyBeforeFirst(lines: seq<Line>, host: string, user: string)
    requires FirstForPair(lines, host, user).None?
    ensures Stamps(lines, host, user, true) == [] && Stamps(lines, host, user, false) == []
  {
    if lines != [] {
      EmptyBeforeFirst(lines[..|lines| - 1], host, user);
    }
  }

  /** How one more line changes what is held for a user. */
  lemma UserStep(prefix: seq<Line>, l: Line, user: string)
    ensures var after := prefix + [l];
      && (!ForUser(l, user) ==>
            FirstForUser(after, user) == FirstForUser(prefix, user)
            && UserCount(after, user) == UserCount(prefix, user))
      && (ForUser(l, user) ==> FirstForUser(after, user).Some?)
      && (ForUser(l, user) && l.Open? ==>
            UserCount(after, user)
              == if FirstForUser(prefix, user).Some? then UserCount(prefix, user) + 1 else 1)
      && (ForUser(l, user) && l.Close? ==>
            UserCount(after, user)
              == if FirstForUser(prefix, user).Some? then UserCount(prefix, user) else 1)
  {
    var after := prefix + [l];
    assert after[..|after| - 1] == prefix;
    if FirstForUser(prefix, user).None? {
      NoOpensBeforeFirst(prefix, user);
    }
  }

  /** Before the first line about a user, no open has been counted. */
  lemma {:induction false} NoOpensBeforeFirst(lines: seq<Line>, user: string)
    requires FirstForUser(lines, user).None?
    ensures OpenCount(lines, user) == 0
  {
    if lines != [] {
      NoOpensBeforeFirst(lines[..|lines| - 1], user);
    }
  }

  /** What `Logins` holds after `lines`. */
  ghost predicate LoginsAfter(logins: map<string, map<string, Entry>>, lines: seq<Line>) {
    && (forall h, u :: (h in logins && u in logins[h]) <==> FirstForPair(lines, h, u).Some?)
    && (forall h, u | h in logins && u in logins[h] :: logins[h][u] == EntryOf(lines, h, u))
    && (forall h | h in logins :: logins[h] != map[])
  }

  /** What `Users` (its first element) holds after `lines`. */
  ghost predicate UsersAfter(users: map<string, int>, lines: seq<Line>) {
    && (forall u :: u in users <==> FirstForUser(lines, u).Some?)
    && (forall u | u in users :: users[u] == UserCount(lines, u))
  }

  /** The part of the main loop's body that updates `Logins`. */
  method AddStamp(logins: map<string, map<string, Entry>>, ghost prefix: seq<Line>, l: Line)
    returns (r: map<string, map<string, Entry>>)
    requires LoginsAfter(logins, prefix)
    ensures LoginsAfter(r, prefix + [l])
  {
    r := logins;
    if !l.Other? {
      var ev := l.ev;
      var hostMap := if ev.host in logins then logins[ev.host] else map[];
      if ev.user !in hostMap {
        hostMap := hostMap[ev.user := if l.Open? then Entry(1, [ev.stamp], []) else Entry(1, [], [ev.stamp])];
      } else {
        var en := hostMap[ev.user];
        hostMap := hostMap[ev.user := if l.Open? then Entry(en.count + 1, en.starts + [ev.stamp], en.ends)
                                      else Entry(en.count, en.starts, en.ends + [ev.stamp])];
      }
      r := logins[ev.host := hostMap];
    }
    forall h, u ensures (h in r && u in r[h]) <==> FirstForPair(prefix + [l], h, u).Some? {
      EntryStep(prefix, l, h, u);
    }
    forall h, u | h in r && u in r[h] ensures r[h][u] == EntryOf(prefix + [l], h, u) {
      EntryStep(prefix, l, h, u);
    }
  }

  /** The part of the main loop's body that updates `Users`. */
  method CountUser(users: map<string, int>, ghost prefix: seq<Line>, l: Line) returns (r: map<string, int>)
    requires UsersAfter(users, prefix)
    ensures UsersAfter(r, prefix + [l])
  {
    r := users;
    if l.Open? {
      if l.ev.user !in users {
        r := users[l.ev.user := 1];
      } else {
        r := users[l.ev.user := users[l.ev.user] + 1];
      }
    } else if l.Close? {
      if l.ev.user !in users {
        // "may not be a session start time for this user"
        r := users[l.ev.user := 1];
      }
    }
    forall u ensures u in r <==> FirstForUser(prefix + [l], u).Some? {
      UserStep(prefix, l, u);
    }
    forall u | u in r ensures r[u] == UserCount(prefix + [l], u) {
      UserStep(prefix, l, u);
    }
  }

  /** The main loop's first pass over the input lines. */
  method Tally(lines: seq<Line>) returns (logins: map<string, map<string, Entry>>, users: map<string, int>)
    ensures forall h, u :: (h in logins && u in logins[h]) <==> FirstForPair(lines, h, u).Some?
    ensures forall h, u | h in logins && u in logins[h] :: logins[h][u] == EntryOf(lines, h, u)
    ensures forall h | h in logins :: logins[h] != map[]
    ensures forall u :: u in users <==> FirstForUser(lines, u).Some?
    ensures forall u | u in users :: users[u] == UserCount(lines, u)
  {
    logins, users := map[], map[];
    for i := 0 to |lines|
      invariant LoginsAfter(logins, lines[..i]) && UsersAfter(users, lines[..i])
    {
      assert lines[..i + 1] == lines[..i] + [lines[i]];
      logins := AddStamp(logins, lines[..i], lines[i]);
      users := CountUser(users, lines[..i], lines[i]);
    }
    assert lines[..|lines|] == lines;
  }
}
