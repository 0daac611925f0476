/** The read-side counts: check-in statistics and the event dashboard, over any database the gate can reach. */
module Dashboard {
  import opened Wrappers
  import opened GateModel
  import opened GateInvariant

  /** The live check-ins of an event, as findMany returns them. */
  function LiveRows(rows: seq<CheckIn>, event: EventId): seq<CheckIn> {
    if |rows| == 0 then []
    else
      var last := rows[|rows| - 1];
      LiveRows(rows[..|rows| - 1], event) + if last.event == event && last.live then [last] else []
  }

  /** COUNT(DISTINCT registration_id). */
  function RegsOf(rows: seq<CheckIn>): set<RegId> {
    set i | 0 <= i < |rows| :: rows[i].reg
  }

  ghost predicate DistinctRegs(rows: seq<CheckIn>) {
    forall i, j :: 0 <= i < j < |rows| ==> rows[i].reg != rows[j].reg
  }

  /** The registrations of an event that are checked in right now. */
  ghost function CheckedInRegs(db: Db, event: EventId): set<RegId> {
    set r | 0 <= r < |db.regs| && db.regs[r].event == event && HasLive(db.checkIns, r)
  }

  ghost function ConfirmedRegs(db: Db, event: EventId): set<RegId> {
    set r | 0 <= r < |db.regs| && db.regs[r].event == event && db.regs[r].status == Confirmed
  }

  ghost function CheckedInOfType(db: Db, event: EventId, t: Option<nat>): set<RegId> {
    set r | r in CheckedInRegs(db, event) && db.regs[r].ticketType == t
  }

  lemma {:induction false} LiveRowsAre(rows: seq<CheckIn>, event: EventId)
    requires DistinctRegs(rows)
    ensures DistinctRegs(LiveRows(rows, event))
    ensures forall row :: row in LiveRows(rows, event) <==> row in rows && row.event == event && row.live
  {
    if |rows| > 0 {
      var front := rows[..|rows| - 1];
      LiveRowsAre(front, event);
      assert rows == front + [rows[|rows| - 1]];
      var live := LiveRows(front, event);
      forall i | 0 <= i < |live| ensures live[i].reg != rows[|rows| - 1].reg {
        assert live[i] in front;
      }
    }
  }

  lemma {:induction false} DistinctCount(rows: seq<CheckIn>)
    requires DistinctRegs(rows)
    ensures |RegsOf(rows)| == |rows|
  {
    if |rows| > 0 {
      var front := rows[..|rows| - 1];
      DistinctCount(front);
      assert RegsOf(rows) == RegsOf(front) + {rows[|rows| - 1].reg};
    }
  }

  lemma LiveRegsAreCheckedIn(db: Db, event: EventId)
    requires DbInv(db)
    ensures RegsOf(LiveRows(db.checkIns, event)) == CheckedInRegs(db, event)
    ensures |LiveRows(db.checkIns, event)| == |CheckedInRegs(db, event)|
  {
    var live := LiveRows(db.checkIns, event);
    LiveRowsAre(db.checkIns, event);
    DistinctCount(live);
    forall r | r in RegsOf(live) ensures r in CheckedInRegs(db, event) {
      var i :| 0 <= i < |live| && live[i].reg == r;
      assert live[i] in db.checkIns;
      var j :| 0 <= j < |db.checkIns| && db.checkIns[j] == live[i];
      assert RowWell(db.regs, db.checkIns[j]);
    }
    forall r | r in CheckedInRegs(db, event) ensures r in RegsOf(live) {
      var j :| 0 <= j < |db.checkIns| && db.checkIns[j].reg == r && db.checkIns[j].live;
      assert RowWell(db.regs, db.checkIns[j]);
      assert db.checkIns[j] in live;
    }
  }

  // ----- the counting loops

  function ValidRows(rows: seq<CheckIn>): seq<CheckIn> {
    if |rows| == 0 then []
    else ValidRows(rows[..|rows| - 1]) + if rows[|rows| - 1].result == Valid then [rows[|rows| - 1]] else []
  }

  lemma {:induction false} AllValid(rows: seq<CheckIn>)
    requires forall i :: 0 <= i < |rows| ==> rows[i].result == Valid
    ensures ValidRows(rows) == rows
  {
    if |rows| > 0 {
      AllValid(rows[..|rows| - 1]);
    }
  }

  function CountConfirmed(regs: seq<Attendee>, event: EventId): nat {
    if |regs| == 0 then 0
    else
      var last := regs[|regs| - 1];
      CountConfirmed(regs[..|regs| - 1], event) + if last.event == event && last.status == Confirmed then 1 else 0
  }

  lemma {:induction false} ConfirmedCount(regs: seq<Attendee>, event: EventId)
    ensures CountConfirmed(regs, event) == |set r | 0 <= r < |regs| && regs[r].event == event && regs[r].status == Confirmed|
  {
    if |regs| > 0 {
      var n := |regs| - 1;
      ConfirmedCount(regs[..n], event);
      ConfirmedSetGrows(regs, event);
    }
  }

  lemma ConfirmedSetGrows(regs: seq<Attendee>, event: EventId)
    requires |regs| > 0
    ensures var n := |regs| - 1;
            var front := set r | 0 <= r < n && regs[..n][r].event == event && regs[..n][r].status == Confirmed;
            var all := set r | 0 <= r < |regs| && regs[r].event == event && regs[r].status == Confirmed;
            n !in front && all == front + if regs[n].event == event && regs[n].status == Confirmed then {n} else {}
  {
  }

  /** The rows of `rows` whose registration has ticket type `t`. */
  function RowsOfType(rows: seq<CheckIn>, regs: seq<Attendee>, t: Option<nat>): seq<CheckIn>
    requires forall i :: 0 <= i < |rows| ==> rows[i].reg < |regs|
  {
    if |rows| == 0 then []
    else
      var last := rows[|rows| - 1];
      RowsOfType(rows[..|rows| - 1], regs, t) + if regs[last.reg].ticketType == t then [last] else []
  }

  lemma {:induction false} RowsOfTypeAre(rows: seq<CheckIn>, regs: seq<Attendee>, t: Option<nat>)
    requires forall i :: 0 <= i < |rows| ==> rows[i].reg < |regs|
    requires DistinctRegs(rows)
    ensures DistinctRegs(RowsOfType(rows, regs, t))
    ensures forall row :: row in RowsOfType(rows, regs, t) <==> row in rows && regs[row.reg].ticketType == t
  {
    if |rows| > 0 {
      var front := rows[..|rows| - 1];
      RowsOfTypeAre(front, regs, t);
      assert rows == front + [rows[|rows| - 1]];
      var typed := RowsOfType(front, regs, t);
      forall i | 0 <= i < |typed| ensures typed[i].reg != rows[|rows| - 1].reg {
        assert typed[i] in front;
      }
    }
  }

  ghost function SumValues(m: map<nat, nat>): nat {
    if m == map[] then 0
    else
      var k :| k in m;
      m[k] + SumValues(m - {k})
  }

  lemma {:induction false} SumAt(m: map<nat, nat>, k: nat)
    requires k in m
    ensures SumValues(m) == m[k] + SumValues(m - {k})
  {
    var c :| c in m && SumValues(m) == m[c] + SumValues(m - {c});
    if c != k {
      SumAt(m - {c}, k);
      SumAt(m - {k}, c);
      assert m - {c} - {k} == m - {k} - {c};
    }
  }

  lemma SumBump(m: map<nat, nat>, k: nat, v: nat)
    ensures SumValues(m[k := v]) == SumValues(m) + v - (if k in m then m[k] else 0)
  {
    SumAt(m[k := v], k);
    if k in m {
      SumAt(m, k);
      assert m[k := v] - {k} == m - {k};
    } else {
      assert m[k := v] - {k} == m;
    }
  }

  function At(m: map<nat, nat>, k: nat): nat {
    if k in m then m[k] else 0
  }

  method TallyByType(rows: seq<CheckIn>, regs: seq<Attendee>) returns (tally: map<nat, nat>)
    requires forall i :: 0 <= i < |rows| ==> rows[i].reg < |regs|
    ensures forall t :: At(tally, t) == |RowsOfType(rows, regs, Some(t))|
    ensures SumValues(tally) + |RowsOfType(rows, regs, None)| == |rows|
  {
    tally := map[];
    for k := 0 to |rows|
      invariant forall t :: At(tally, t) == |RowsOfType(rows[..k], regs, Some(t))|
      invariant SumValues(tally) + |RowsOfType(rows[..k], regs, None)| == k
    {
      assert rows[..k + 1][..k] == rows[..k];
      var ticketType := regs[rows[k].reg].ticketType;
      if ticketType.Some? {
        SumBump(tally, ticketType.value, At(tally, ticketType.value) + 1);
        tally := tally[ticketType.value := At(tally, ticketType.value) + 1];
      }
    }
    assert rows[..|rows|] == rows;
  }

  datatype Stats = Stats(total: nat, valid: nat, unique: nat, noShows: int, checkedInByType: map<nat, nat>)

  /** The counts of getCheckinStatistics and getDashboardStats for one event. All three check-in counts are
      the number of registrations checked in; no-shows are the confirmed registrations that are not; each
      ticket type's figure is its registrations checked in, and they and the untyped ones make up the total. */
  method EventStats(db: Db, event: EventId) returns (stats: Stats)
    requires DbInv(db)
    ensures stats.total == stats.valid == stats.unique == |CheckedInRegs(db, event)|
    ensures stats.noShows == |ConfirmedRegs(db, event) - CheckedInRegs(db, event)|
    ensures forall t: nat :: At(stats.checkedInByType, t) == |CheckedInOfType(db, event, Some(t))|
    ensures SumValues(stats.checkedInByType) + |CheckedInOfType(db, event, None)| == stats.valid
  {
    StatsFacts(db, event);
    var checkedInRows := LiveRows(db.checkIns, event);
    var validCheckins := ValidRows(checkedInRows);
    var confirmed := CountConfirmed(db.regs, event);
    var byType := TallyByType(validCheckins, db.regs);
    var noShows := if confirmed - |validCheckins| > 0 then confirmed - |validCheckins| else 0;
    stats := Stats(|checkedInRows|, |validCheckins|, |RegsOf(checkedInRows)|, noShows, byType);
  }

  lemma StatsFacts(db: Db, event: EventId)
    requires DbInv(db)
    ensures var rows := LiveRows(db.checkIns, event);
            && ValidRows(rows) == rows
            && (forall i :: 0 <= i < |rows| ==> rows[i].reg < |db.regs|)
            && |RegsOf(rows)| == |rows| == |CheckedInRegs(db, event)|
            && |ConfirmedRegs(db, event) - CheckedInRegs(db, event)| == CountConfirmed(db.regs, event) - |rows|
            && (forall t: Option<nat> :: |RowsOfType(rows, db.regs, t)| == |CheckedInOfType(db, event, t)|)
  {
    var rows := LiveRows(db.checkIns, event);
    LiveFacts(db, event);
    LiveRegsAreCheckedIn(db, event);
    AllValid(rows);
    ConfirmedCount(db.regs, event);
    assert ConfirmedRegs(db, event) == set r | 0 <= r < |db.regs| && db.regs[r].event == event && db.regs[r].status == Confirmed;
    NoShowCount(db, event);
    forall t: Option<nat> ensures |RowsOfType(rows, db.regs, t)| == |CheckedInOfType(db, event, t)| {
      TypeCount(db, event, t);
    }
  }

  lemma LiveFacts(db: Db, event: EventId)
    requires DbInv(db)
    ensures var rows := LiveRows(db.checkIns, event);
            DistinctRegs(rows) && forall i :: 0 <= i < |rows| ==> RowWell(db.regs, rows[i])
  {
    var rows := LiveRows(db.checkIns, event);
    LiveRowsAre(db.checkIns, event);
    forall i | 0 <= i < |rows| ensures RowWell(db.regs, rows[i]) {
      assert rows[i] in db.checkIns;
      var j :| 0 <= j < |db.checkIns| && db.checkIns[j] == rows[i];
    }
  }

  lemma NoShowCount(db: Db, event: EventId)
    requires DbInv(db)
    ensures CheckedInRegs(db, event) <= ConfirmedRegs(db, event)
    ensures |ConfirmedRegs(db, event) - CheckedInRegs(db, event)| == |ConfirmedRegs(db, event)| - |CheckedInRegs(db, event)|
  {
    forall r | r in CheckedInRegs(db, event) ensures r in ConfirmedRegs(db, event) {
      var i :| 0 <= i < |db.checkIns| && db.checkIns[i].reg == r && db.checkIns[i].live;
      assert RowWell(db.regs, db.checkIns[i]);
    }
  }

  lemma TypeCount(db: Db, event: EventId, t: Option<nat>)
    requires DbInv(db)
    requires forall i :: 0 <= i < |LiveRows(db.checkIns, event)| ==> LiveRows(db.checkIns, event)[i].reg < |db.regs|
    ensures |RowsOfType(LiveRows(db.checkIns, event), db.regs, t)| == |CheckedInOfType(db, event, t)|
  {
    var rows := LiveRows(db.checkIns, event);
    LiveFacts(db, event);
    LiveRegsAreCheckedIn(db, event);
    RowsOfTypeAre(rows, db.regs, t);
    var typed := RowsOfType(rows, db.regs, t);
    DistinctCount(typed);
    var expected := CheckedInOfType(db, event, t);
    forall r | r in RegsOf(typed) ensures r in expected {
      var i :| 0 <= i < |typed| && typed[i].reg == r;
      assert typed[i] in rows;
      var j :| 0 <= j < |rows| && rows[j] == typed[i];
      assert r in RegsOf(rows);
    }
    forall r | r in expected ensures r in RegsOf(typed) {
      assert r in RegsOf(rows);
      var j :| 0 <= j < |rows| && rows[j].reg == r;
      assert rows[j] in typed;
    }
    assert RegsOf(typed) == expected;
  }

  /** Every state the gate can reach, under any interleaving, is one the statistics are right about. */
  lemma StatsHoldEverywhere(actions: seq<Action>, event: EventId)
    ensures var db := Run(EMPTY, actions).db;
            && DbInv(db)
            && CheckedInRegs(db, event) <= ConfirmedRegs(db, event)
            && |LiveRows(db.checkIns, event)| == |CheckedInRegs(db, event)| == |RegsOf(LiveRows(db.checkIns, event))|
  {
    RunKeepsInv(EMPTY, actions);
    LiveRegsAreCheckedIn(Run(EMPTY, actions).db, event);
    NoShowCount(Run(EMPTY, actions).db, event);
  }
}
