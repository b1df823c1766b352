// The retention pass over meeting recordings: expired meetings go first, then the oldest ones while
// the rest is over the storage limit. Meeting identifiers are integers in the order in which the
// program compares them, times are milliseconds; the size of a recording is what its lookup yields.
module RecordingRetention {
  import opened Options

  type MeetingId = int

  const GIB_BYTES: nat := 1024 * 1024 * 1024
  const DAY_MS: nat := 24 * 60 * 60 * 1000

  // A row of the join of recordings and meetings. `active` tells a recording that is still being made.
  datatype Row = Row(meeting: Option<MeetingId>, meetingEnded: bool, endedAt: Option<int>, active: bool, size: Option<nat>)

  datatype Group = Group(meeting: MeetingId, ended: bool, endedAt: Option<int>, recordings: seq<Row>, sizeBytes: nat, sizeKnown: bool)

  datatype Settings = Settings(retentionDays: Option<nat>, storageLimitGiB: Option<nat>)

  // ---------- Grouping ----------

  function Fresh(meeting: MeetingId, row: Row): Group {
    Group(meeting, row.meetingEnded, row.endedAt, [row], 0, true)
  }

  function Extended(group: Group, row: Row): Group {
    group.(recordings := group.recordings + [row])
  }

  // A row joins the group of its meeting, or founds it behind the others; without a meeting it is lost.
  function Added(groups: seq<Group>, row: Row): seq<Group> {
    if row.meeting.None? then groups
    else if groups == [] then [Fresh(row.meeting.value, row)]
    else if groups[0].meeting == row.meeting.value then [Extended(groups[0], row)] + groups[1..]
    else [groups[0]] + Added(groups[1..], row)
  }

  function Grouped(rows: seq<Row>): seq<Group> {
    if rows == [] then [] else Added(Grouped(rows[..|rows| - 1]), rows[|rows| - 1])
  }

  function Values(keys: seq<MeetingId>, groups: map<MeetingId, Group>): seq<Group>
    requires forall i | 0 <= i < |keys| :: keys[i] in groups
  {
    seq(|keys|, i requires 0 <= i < |keys| => groups[keys[i]])
  }

  ghost predicate Keyed(keys: seq<MeetingId>, groups: map<MeetingId, Group>) {
    && (forall i | 0 <= i < |keys| :: keys[i] in groups && groups[keys[i]].meeting == keys[i])
    && (forall i, j | 0 <= i < j < |keys| :: keys[i] != keys[j])
    && (forall id | id in groups :: id in keys)
  }

  lemma {:induction false} AddedIsUpdate(keys: seq<MeetingId>, groups: map<MeetingId, Group>, row: Row, meeting: MeetingId)
    requires forall i | 0 <= i < |keys| :: keys[i] in groups && groups[keys[i]].meeting == keys[i]
    requires forall i, j | 0 <= i < j < |keys| :: keys[i] != keys[j]
    requires row.meeting == Some(meeting) && (meeting in groups ==> groups[meeting].meeting == meeting)
    ensures meeting in keys ==> Added(Values(keys, groups), row) == Values(keys, groups[meeting := Extended(groups[meeting], row)])
    ensures meeting !in keys ==> Added(Values(keys, groups), row) == Values(keys + [meeting], groups[meeting := Fresh(meeting, row)])
  {
    hide Fresh, Extended;
    var values := Values(keys, groups);
    if keys != [] {
      assert values[1..] == Values(keys[1..], groups);
      if keys[0] == meeting {
        var updated := groups[meeting := Extended(groups[meeting], row)];
        assert Values(keys, updated) == [updated[meeting]] + values[1..];
      } else {
        AddedIsUpdate(keys[1..], groups, row, meeting);
        assert (keys + [meeting])[1..] == keys[1..] + [meeting];
      }
    }
  }

  method GroupRecordings(rows: seq<Row>) returns (result: seq<Group>)
    ensures result == Grouped(rows)
  {
    var keys: seq<MeetingId> := [];
    var groups: map<MeetingId, Group> := map[];
    for n := 0 to |rows|
      invariant Keyed(keys, groups)
      invariant Values(keys, groups) == Grouped(rows[..n])
    {
      assert rows[..n + 1][..n] == rows[..n];
      var row := rows[n];
      if row.meeting.Some? {
        var meeting := row.meeting.value;
        AddedIsUpdate(keys, groups, row, meeting);
        if meeting !in groups {
          groups := groups[meeting := Fresh(meeting, row)];
          keys := keys + [meeting];
        } else {
          groups := groups[meeting := Extended(groups[meeting], row)];
        }
      }
    }
    assert rows[..|rows|] == rows;
    result := Values(keys, groups);
  }

  // ---------- Sizes ----------

  function KnownBytes(recordings: seq<Row>): nat {
    if recordings == [] then 0
    else
      var last := recordings[|recordings| - 1];
      KnownBytes(recordings[..|recordings| - 1]) + if last.size.Some? then last.size.value else 0
  }

  predicate AllKnown(recordings: seq<Row>) {
    forall i | 0 <= i < |recordings| :: recordings[i].size.Some?
  }

  function Measured(group: Group): Group {
    group.(sizeBytes := KnownBytes(group.recordings), sizeKnown := AllKnown(group.recordings))
  }

  function AllMeasured(groups: seq<Group>): seq<Group> {
    seq(|groups|, i requires 0 <= i < |groups| => Measured(groups[i]))
  }

  method Measure(group: Group) returns (measured: Group)
    ensures measured == Measured(group)
  {
    measured := group.(sizeBytes := 0, sizeKnown := true);
    for n := 0 to |group.recordings|
      invariant measured == group.(sizeBytes := KnownBytes(group.recordings[..n]), sizeKnown := AllKnown(group.recordings[..n]))
    {
      assert group.recordings[..n + 1][..n] == group.recordings[..n];
      assert group.recordings[..n + 1] == group.recordings[..n] + [group.recordings[n]];
      var size := group.recordings[n].size;
      if size.None? {
        measured := measured.(sizeKnown := false);
        assert !AllKnown(group.recordings[..n + 1]) by { assert group.recordings[..n + 1][n].size.None?; }
      } else {
        measured := measured.(sizeBytes := measured.sizeBytes + size.value);
      }
    }
    assert group.recordings[..|group.recordings|] == group.recordings;
  }

  method MeasureAll(groups: seq<Group>) returns (measured: seq<Group>)
    ensures measured == AllMeasured(groups)
  {
    measured := groups;
    for n := 0 to |measured|
      invariant |measured| == |groups|
      invariant forall i | 0 <= i < n :: measured[i] == Measured(groups[i])
      invariant forall i | n <= i < |measured| :: measured[i] == groups[i]
    {
      var group := Measure(measured[n]);
      measured := measured[n := group];
    }
  }

  // ---------- Which meetings may go, oldest first ----------

  predicate Deletable(group: Group, protectedMeetings: set<MeetingId>) {
    && group.ended && group.meeting !in protectedMeetings && group.endedAt.Some?
    && forall i | 0 <= i < |group.recordings| :: !group.recordings[i].active
  }

  function Deletables(groups: seq<Group>, protectedMeetings: set<MeetingId>): seq<Group> {
    if groups == [] then []
    else
      var rest := Deletables(groups[1..], protectedMeetings);
      if Deletable(groups[0], protectedMeetings) then Inserted(groups[0], rest) else rest
  }

  predicate Older(a: Group, b: Group) {
    if a.endedAt.None? then b.endedAt.None? && a.meeting < b.meeting
    else b.endedAt.None? || a.endedAt.value < b.endedAt.value || (a.endedAt.value == b.endedAt.value && a.meeting < b.meeting)
  }

  function Inserted(group: Group, sorted: seq<Group>): seq<Group> {
    if sorted == [] then [group]
    else if Older(group, sorted[0]) then [group] + sorted
    else [sorted[0]] + Inserted(group, sorted[1..])
  }

  predicate Distinct(groups: seq<Group>) {
    forall i, j | 0 <= i < j < |groups| :: groups[i].meeting != groups[j].meeting
  }

  predicate OldestFirst(groups: seq<Group>) {
    forall i, j | 0 <= i < j < |groups| :: Older(groups[i], groups[j])
  }

  lemma {:induction false} InsertedSorts(group: Group, sorted: seq<Group>)
    requires OldestFirst(sorted) && forall other | other in sorted :: other.meeting != group.meeting
    ensures OldestFirst(Inserted(group, sorted))
    ensures forall other :: other in Inserted(group, sorted) <==> other == group || other in sorted
  {
    if sorted != [] {
      assert forall other | other in sorted[1..] :: Older(sorted[0], other);
      assert forall other :: other in sorted <==> other == sorted[0] || other in sorted[1..];
      if Older(group, sorted[0]) {
        assert forall other | other in sorted :: Older(group, other);
      } else {
        InsertedSorts(group, sorted[1..]);
        var rest := Inserted(group, sorted[1..]);
        assert forall other | other in rest :: Older(sorted[0], other);
        assert forall i | 0 <= i < |rest| :: rest[i] in rest;
      }
    }
  }

  lemma {:induction false} DeletablesSorted(groups: seq<Group>, protectedMeetings: set<MeetingId>)
    requires Distinct(groups)
    ensures OldestFirst(Deletables(groups, protectedMeetings))
    ensures forall group :: group in Deletables(groups, protectedMeetings) <==> group in groups && Deletable(group, protectedMeetings)
  {
    if groups != [] {
      DeletablesSorted(groups[1..], protectedMeetings);
      assert forall group :: group in groups <==> group == groups[0] || group in groups[1..];
      if Deletable(groups[0], protectedMeetings) {
        InsertedSorts(groups[0], Deletables(groups[1..], protectedMeetings));
      }
    }
  }

  // ---------- What goes ----------

  function Expired(oldestFirst: seq<Group>, cutoff: int): set<MeetingId> {
    set group | group in oldestFirst && group.endedAt.Some? && group.endedAt.value <= cutoff :: group.meeting
  }

  function KeptBytes(groups: seq<Group>, gone: set<MeetingId>): nat {
    if groups == [] then 0
    else (if groups[0].meeting in gone then 0 else groups[0].sizeBytes) + KeptBytes(groups[1..], gone)
  }

  // The budget loop from a running total on.
  function Evicted(oldestFirst: seq<Group>, gone: set<MeetingId>, total: int, limit: int): set<MeetingId> {
    if oldestFirst == [] || total <= limit then {}
    else
      var group := oldestFirst[0];
      if group.meeting in gone || group.sizeBytes == 0 then Evicted(oldestFirst[1..], gone, total, limit)
      else {group.meeting} + Evicted(oldestFirst[1..], gone + {group.meeting}, total - group.sizeBytes, limit)
  }

  predicate Unresolved(groups: seq<Group>, gone: set<MeetingId>) {
    exists i | 0 <= i < |groups| :: groups[i].meeting !in gone && !groups[i].sizeKnown
  }

  function Aged(groups: seq<Group>, protectedMeetings: set<MeetingId>, settings: Settings, now: int): set<MeetingId> {
    if settings.retentionDays.None? then {}
    else Expired(Deletables(groups, protectedMeetings), now - settings.retentionDays.value * DAY_MS)
  }

  function Evictions(groups: seq<Group>, protectedMeetings: set<MeetingId>, settings: Settings, aged: set<MeetingId>): set<MeetingId> {
    if settings.storageLimitGiB.None? || Unresolved(groups, aged) then {}
    else Evicted(Deletables(groups, protectedMeetings), aged, KeptBytes(groups, aged), settings.storageLimitGiB.value * GIB_BYTES)
  }

  function Deleted(groups: seq<Group>, protectedMeetings: set<MeetingId>, settings: Settings, now: int): set<MeetingId> {
    var aged := Aged(groups, protectedMeetings, settings, now);
    aged + Evictions(groups, protectedMeetings, settings, aged)
  }

  function Without(rows: seq<Row>, gone: set<MeetingId>): seq<Row> {
    if rows == [] then []
    else
      var last := rows[|rows| - 1];
      Without(rows[..|rows| - 1], gone) + if last.meeting.Some? && last.meeting.value in gone then [] else [last]
  }

  lemma {:induction false} WithoutTwice(rows: seq<Row>, gone: set<MeetingId>, more: set<MeetingId>)
    ensures Without(Without(rows, gone), more) == Without(rows, gone + more)
  {
    if rows != [] {
      var n := |rows| - 1;
      WithoutTwice(rows[..n], gone, more);
      var kept := Without(rows[..n], gone);
      assert (kept + [rows[n]])[..|kept|] == kept && kept + [] == kept;
    }
  }

  lemma {:induction false} WithoutNone(rows: seq<Row>)
    ensures Without(rows, {}) == rows
  {
    if rows != [] {
      WithoutNone(rows[..|rows| - 1]);
    }
  }

  // ---------- The pass ----------

  class Database {
    var rows: seq<Row>

    constructor (rows: seq<Row>)
      ensures this.rows == rows
    {
      this.rows := rows;
    }

    method DeleteMeeting(meeting: MeetingId)
      modifies this
      ensures rows == Without(old(rows), {meeting})
    {
      rows := Without(rows, {meeting});
    }

    method Expire(oldestFirst: seq<Group>, cutoff: int) returns (gone: set<MeetingId>)
      modifies this
      ensures gone == Expired(oldestFirst, cutoff) && rows == Without(old(rows), gone)
    {
      gone := {};
      WithoutNone(rows);
      for n := 0 to |oldestFirst|
        invariant gone == Expired(oldestFirst[..n], cutoff)
        invariant rows == Without(old(rows), gone)
      {
        ExpiredStep(oldestFirst, n, cutoff);
        var group := oldestFirst[n];
        if group.endedAt.Some? && group.endedAt.value <= cutoff {
          WithoutTwice(old(rows), gone, {group.meeting});
          DeleteMeeting(group.meeting);
          gone := gone + {group.meeting};
        }
      }
      assert oldestFirst[..|oldestFirst|] == oldestFirst;
    }

    // The running total is at any time the size of what is kept.
    method Evict(groups: seq<Group>, oldestFirst: seq<Group>, gone: set<MeetingId>, limit: int) returns (now: set<MeetingId>, total: int)
      requires Distinct(groups) && forall group | group in oldestFirst :: group in groups
      modifies this
      ensures now == gone + Evicted(oldestFirst, gone, KeptBytes(groups, gone), limit)
      ensures total == KeptBytes(groups, now)
      ensures old(rows) == Without(old(rows), gone) ==> rows == Without(old(rows), now)
    {
      now, total := gone, KeptBytes(groups, gone);
      var n := 0;
      while n < |oldestFirst|
        invariant 0 <= n <= |oldestFirst|
        invariant total == KeptBytes(groups, now)
        invariant gone + Evicted(oldestFirst, gone, KeptBytes(groups, gone), limit) == now + Evicted(oldestFirst[n..], now, total, limit)
        invariant old(rows) == Without(old(rows), gone) ==> rows == Without(old(rows), now)
      {
        if total <= limit {
          break;
        }
        var group := oldestFirst[n];
        assert oldestFirst[n..][0] == group && oldestFirst[n..][1..] == oldestFirst[n + 1..];
        n := n + 1;
        if group.meeting in now || group.sizeBytes == 0 {
          continue;
        }
        WithoutTwice(old(rows), now, {group.meeting});
        KeptWithout(groups, now, group);
        DeleteMeeting(group.meeting);
        now := now + {group.meeting};
        total := total - group.sizeBytes;
      }
    }

    method Run(protectedMeetings: set<MeetingId>, settings: Settings, now: int) returns (deleted: set<MeetingId>)
      modifies this
      ensures deleted == Deleted(AllMeasured(Grouped(old(rows))), protectedMeetings, settings, now)
      ensures rows == Without(old(rows), deleted)
    {
      hide Grouped, AllMeasured, Distinct, Deletables, Evicted, Expired, Without, KeptBytes, OldestFirst, Unresolved;
      var groups := GroupRecordings(rows);
      groups := MeasureAll(groups);
      GroupedDistinct(rows);
      var oldestFirst := Deletables(groups, protectedMeetings);
      DeletablesSorted(groups, protectedMeetings);

      deleted := {};
      WithoutNone(rows);
      if settings.retentionDays.Some? {
        deleted := Expire(oldestFirst, now - settings.retentionDays.value * DAY_MS);
      }
      if settings.storageLimitGiB.Some? && !Unresolved(groups, deleted) {
        WithoutTwice(old(rows), deleted, deleted);
        assert deleted + deleted == deleted;
        ghost var aged := deleted;
        var total;
        deleted, total := Evict(groups, oldestFirst, deleted, settings.storageLimitGiB.value * GIB_BYTES);
        WithoutTwice(old(rows), aged, deleted);
        assert aged + deleted == deleted;
      }
    }
  }

  lemma ExpiredStep(oldestFirst: seq<Group>, n: nat, cutoff: int)
    requires n < |oldestFirst|
    ensures Expired(oldestFirst[..n + 1], cutoff) == Expired(oldestFirst[..n], cutoff)
      + if oldestFirst[n].endedAt.Some? && oldestFirst[n].endedAt.value <= cutoff then {oldestFirst[n].meeting} else {}
  {
    assert oldestFirst[..n + 1] == oldestFirst[..n] + [oldestFirst[n]];
  }

  lemma {:induction false} KeptWithout(groups: seq<Group>, gone: set<MeetingId>, group: Group)
    requires Distinct(groups) && group in groups && group.meeting !in gone
    ensures KeptBytes(groups, gone + {group.meeting}) == KeptBytes(groups, gone) - group.sizeBytes
  {
    if groups[0] == group {
      KeptAlike(groups[1..], gone, group.meeting);
    } else {
      KeptWithout(groups[1..], gone, group);
    }
  }

  lemma {:induction false} KeptAlike(groups: seq<Group>, gone: set<MeetingId>, meeting: MeetingId)
    requires forall group | group in groups :: group.meeting != meeting
    ensures KeptBytes(groups, gone + {meeting}) == KeptBytes(groups, gone)
  {
    if groups != [] {
      KeptAlike(groups[1..], gone, meeting);
    }
  }

  // ---------- Grouping, seen from outside ----------

  lemma {:induction false} AddedMeetings(groups: seq<Group>, row: Row)
    requires Distinct(groups)
    ensures Distinct(Added(groups, row))
    ensures forall group | group in Added(groups, row) ::
      (exists old' | old' in groups :: old'.meeting == group.meeting) || row.meeting == Some(group.meeting)
  {
    if row.meeting.Some? && groups != [] && groups[0].meeting != row.meeting.value {
      AddedMeetings(groups[1..], row);
    }
  }

  lemma {:induction false} GroupedDistinct(rows: seq<Row>)
    ensures Distinct(Grouped(rows)) && Distinct(AllMeasured(Grouped(rows)))
  {
    if rows != [] {
      GroupedDistinct(rows[..|rows| - 1]);
      AddedMeetings(Grouped(rows[..|rows| - 1]), rows[|rows| - 1]);
    }
  }

  function WithoutGroups(groups: seq<Group>, gone: set<MeetingId>): seq<Group> {
    if groups == [] then []
    else (if groups[0].meeting in gone then [] else [groups[0]]) + WithoutGroups(groups[1..], gone)
  }

  lemma {:induction false} AddedWithout(groups: seq<Group>, row: Row, gone: set<MeetingId>)
    ensures WithoutGroups(Added(groups, row), gone) ==
      if row.meeting.Some? && row.meeting.value in gone then WithoutGroups(groups, gone) else Added(WithoutGroups(groups, gone), row)
  {
    if row.meeting.Some? && groups != [] {
      var rest, first := WithoutGroups(groups[1..], gone), groups[0];
      assert [] + rest == rest && ([first] + rest)[1..] == rest;
      if first.meeting == row.meeting.value {
        assert Added(groups, row)[1..] == groups[1..];
      } else {
        AddedWithout(groups[1..], row, gone);
        assert Added(groups, row)[1..] == Added(groups[1..], row);
        assert [] + Added(rest, row) == Added(rest, row);
      }
    } else if row.meeting.Some? && row.meeting.value in gone {
      assert WithoutGroups(Added(groups, row), gone) == [];
    }
  }

  // Deleting rows of whole meetings deletes exactly their groups.
  lemma {:induction false} GroupedWithout(rows: seq<Row>, gone: set<MeetingId>)
    ensures Grouped(Without(rows, gone)) == WithoutGroups(Grouped(rows), gone)
  {
    if rows != [] {
      var n := |rows| - 1;
      GroupedWithout(rows[..n], gone);
      AddedWithout(Grouped(rows[..n]), rows[n], gone);
      var kept := Without(rows[..n], gone);
      assert (kept + [rows[n]])[..|kept|] == kept && kept + [] == kept;
    }
  }

  lemma {:induction false} MeasuredWithout(groups: seq<Group>, gone: set<MeetingId>)
    ensures AllMeasured(WithoutGroups(groups, gone)) == WithoutGroups(AllMeasured(groups), gone)
  {
    if groups != [] {
      MeasuredWithout(groups[1..], gone);
      assert AllMeasured(groups) == [Measured(groups[0])] + AllMeasured(groups[1..]);
      var rest := WithoutGroups(groups[1..], gone);
      assert AllMeasured([groups[0]] + rest) == [Measured(groups[0])] + AllMeasured(rest);
      assert AllMeasured([] + rest) == AllMeasured(rest);
    }
  }

  lemma {:induction false} WithoutGroupsMembers(groups: seq<Group>, gone: set<MeetingId>, group: Group)
    ensures group in WithoutGroups(groups, gone) <==> group in groups && group.meeting !in gone
  {
    if groups != [] {
      WithoutGroupsMembers(groups[1..], gone, group);
    }
  }

  lemma {:induction false} WithoutGroupsDistinct(groups: seq<Group>, gone: set<MeetingId>)
    requires Distinct(groups)
    ensures Distinct(WithoutGroups(groups, gone))
  {
    if groups != [] {
      WithoutGroupsDistinct(groups[1..], gone);
      var rest := WithoutGroups(groups[1..], gone);
      forall i | 0 <= i < |rest| ensures rest[i].meeting != groups[0].meeting {
        WithoutGroupsMembers(groups[1..], gone, rest[i]);
      }
    }
  }

  lemma {:induction false} WithoutGroupsBytes(groups: seq<Group>, gone: set<MeetingId>)
    ensures KeptBytes(WithoutGroups(groups, gone), {}) == KeptBytes(groups, gone)
  {
    if groups != [] {
      WithoutGroupsBytes(groups[1..], gone);
      var rest := WithoutGroups(groups[1..], gone);
      assert [] + rest == rest && ([groups[0]] + rest)[1..] == rest;
    }
  }

  // ---------- What a pass achieves ----------

  predicate Takeable(group: Group, gone: set<MeetingId>) {
    group.sizeBytes > 0 && group.meeting !in gone
  }

  // The loop takes nonempty meetings only, and none twice.
  lemma {:induction false} EvictedMembers(oldestFirst: seq<Group>, gone: set<MeetingId>, total: int, limit: int)
    ensures forall meeting | meeting in Evicted(oldestFirst, gone, total, limit) ::
      meeting !in gone && exists i | 0 <= i < |oldestFirst| :: oldestFirst[i].meeting == meeting && Takeable(oldestFirst[i], gone)
  {
    if oldestFirst != [] && total > limit {
      var group := oldestFirst[0];
      var next := if Takeable(group, gone) then gone + {group.meeting} else gone;
      var left := if Takeable(group, gone) then total - group.sizeBytes else total;
      EvictedMembers(oldestFirst[1..], next, left, limit);
      forall meeting | meeting in Evicted(oldestFirst, gone, total, limit)
        ensures meeting !in gone && exists i | 0 <= i < |oldestFirst| :: oldestFirst[i].meeting == meeting && Takeable(oldestFirst[i], gone)
      {
        if meeting in Evicted(oldestFirst[1..], next, left, limit) {
          var i :| 0 <= i < |oldestFirst[1..]| && oldestFirst[1..][i].meeting == meeting && Takeable(oldestFirst[1..][i], next);
          assert oldestFirst[i + 1].meeting == meeting && Takeable(oldestFirst[i + 1], gone);
        } else {
          assert oldestFirst[0].meeting == meeting;
        }
      }
    }
  }

  // It takes the oldest first: with a meeting, every older one that can be taken.
  lemma {:induction false} EvictedOldestFirst(oldestFirst: seq<Group>, gone: set<MeetingId>, total: int, limit: int, i: nat, j: nat)
    requires Distinct(oldestFirst) && i < j < |oldestFirst|
    requires Takeable(oldestFirst[i], gone) && oldestFirst[j].meeting in Evicted(oldestFirst, gone, total, limit)
    ensures oldestFirst[i].meeting in Evicted(oldestFirst, gone, total, limit)
  {
    if i > 0 {
      var group := oldestFirst[0];
      if Takeable(group, gone) {
        EvictedOldestFirst(oldestFirst[1..], gone + {group.meeting}, total - group.sizeBytes, limit, i - 1, j - 1);
      } else {
        EvictedOldestFirst(oldestFirst[1..], gone, total, limit, i - 1, j - 1);
      }
    }
  }

  // It ends within the limit, or with nothing left to take.
  lemma {:induction false} EvictedEnough(oldestFirst: seq<Group>, groups: seq<Group>, gone: set<MeetingId>, limit: int)
    requires Distinct(groups) && forall group | group in oldestFirst :: group in groups
    ensures var then' := gone + Evicted(oldestFirst, gone, KeptBytes(groups, gone), limit);
      KeptBytes(groups, then') <= limit || forall group | group in oldestFirst :: !Takeable(group, then')
    decreases |oldestFirst|
  {
    var total := KeptBytes(groups, gone);
    if oldestFirst == [] || total <= limit {
      assert gone + {} == gone;
    } else {
      var group := oldestFirst[0];
      assert forall other :: other in oldestFirst <==> other == group || other in oldestFirst[1..];
      if Takeable(group, gone) {
        KeptWithout(groups, gone, group);
        EvictedEnough(oldestFirst[1..], groups, gone + {group.meeting}, limit);
        var rest := Evicted(oldestFirst[1..], gone + {group.meeting}, total - group.sizeBytes, limit);
        assert gone + {group.meeting} + rest == gone + ({group.meeting} + rest);
      } else {
        EvictedEnough(oldestFirst[1..], groups, gone, limit);
      }
    }
  }

  // The newest meeting it takes was still needed: without it, the rest would be over the limit.
  lemma {:induction false} EvictedNeeded(oldestFirst: seq<Group>, groups: seq<Group>, gone: set<MeetingId>, limit: int) returns (newest: nat)
    requires Distinct(oldestFirst) && Distinct(groups) && forall group | group in oldestFirst :: group in groups
    requires Evicted(oldestFirst, gone, KeptBytes(groups, gone), limit) != {}
    ensures var evicted := Evicted(oldestFirst, gone, KeptBytes(groups, gone), limit);
      && newest < |oldestFirst| && oldestFirst[newest].meeting in evicted
      && KeptBytes(groups, gone + (evicted - {oldestFirst[newest].meeting})) > limit
      && forall j | newest < j < |oldestFirst| :: oldestFirst[j].meeting !in evicted
    decreases |oldestFirst|
  {
    var total := KeptBytes(groups, gone);
    var group := oldestFirst[0];
    if Takeable(group, gone) {
      KeptWithout(groups, gone, group);
      var next, left := gone + {group.meeting}, total - group.sizeBytes;
      var rest := Evicted(oldestFirst[1..], next, left, limit);
      EvictedMembers(oldestFirst[1..], next, left, limit);
      if rest == {} {
        newest := 0;
        assert {group.meeting} + rest == {group.meeting};
        assert gone + ({group.meeting} - {group.meeting}) == gone;
      } else {
        var k := EvictedNeeded(oldestFirst[1..], groups, next, limit);
        newest := k + 1;
        var taken := oldestFirst[newest].meeting;
        assert next + (rest - {taken}) == gone + ({group.meeting} + rest - {taken});
      }
    } else {
      var k := EvictedNeeded(oldestFirst[1..], groups, gone, limit);
      newest := k + 1;
    }
  }

  // ---------- A pass over the table ----------

  function RowsOf(rows: seq<Row>, meeting: MeetingId): seq<Row> {
    if rows == [] then []
    else
      var last := rows[|rows| - 1];
      RowsOf(rows[..|rows| - 1], meeting) + if last.meeting == Some(meeting) then [last] else []
  }

  // The group of a meeting, if it has any row.
  predicate IsGroupOf(group: Group, rows: seq<Row>) {
    && group.recordings == RowsOf(rows, group.meeting) && group.recordings != []
    && group.ended == group.recordings[0].meetingEnded && group.endedAt == group.recordings[0].endedAt
  }

  function Find(groups: seq<Group>, meeting: MeetingId): Option<Group> {
    if groups == [] then None
    else if groups[0].meeting == meeting then Some(groups[0])
    else Find(groups[1..], meeting)
  }

  lemma {:induction false} FindIsMember(groups: seq<Group>, group: Group)
    requires Distinct(groups)
    ensures group in groups <==> Find(groups, group.meeting) == Some(group)
  {
    if groups != [] {
      FindIsMember(groups[1..], group);
      if groups[0].meeting == group.meeting {
        assert forall i | 0 <= i < |groups[1..]| :: groups[1..][i].meeting != group.meeting;
      }
    }
  }

  lemma {:induction false} FindAdded(groups: seq<Group>, row: Row, meeting: MeetingId)
    ensures Find(Added(groups, row), meeting) ==
      if row.meeting != Some(meeting) then Find(groups, meeting)
      else if Find(groups, meeting).None? then Some(Fresh(meeting, row))
      else Some(Extended(Find(groups, meeting).value, row))
  {
    if row.meeting.Some? && groups != [] && groups[0].meeting != row.meeting.value {
      FindAdded(groups[1..], row, meeting);
      assert Added(groups, row)[1..] == Added(groups[1..], row);
    } else if row.meeting.Some? && groups != [] {
      assert Added(groups, row)[1..] == groups[1..];
    }
  }

  // Grouping loses no row and mixes no meetings: the group of a meeting holds exactly its rows.
  lemma {:induction false} GroupHoldsTheRows(rows: seq<Row>, meeting: MeetingId)
    ensures RowsOf(rows, meeting) == [] ==> Find(Grouped(rows), meeting).None?
    ensures RowsOf(rows, meeting) != [] ==>
      && Find(Grouped(rows), meeting).Some?
      && var group := Find(Grouped(rows), meeting).value;
         group.meeting == meeting && IsGroupOf(group, rows)
  {
    if rows != [] {
      var n := |rows| - 1;
      GroupHoldsTheRows(rows[..n], meeting);
      FindAdded(Grouped(rows[..n]), rows[n], meeting);
      assert RowsOf(rows[..n], meeting) + [] == RowsOf(rows[..n], meeting);
    }
  }

  function Meetings(rows: seq<Row>): seq<Group> {
    AllMeasured(Grouped(rows))
  }

  lemma {:induction false} FindMeasured(groups: seq<Group>, meeting: MeetingId)
    ensures Find(AllMeasured(groups), meeting) == if Find(groups, meeting).None? then None else Some(Measured(Find(groups, meeting).value))
  {
    if groups != [] {
      FindMeasured(groups[1..], meeting);
      assert AllMeasured(groups)[1..] == AllMeasured(groups[1..]);
    }
  }

  // The meeting may go: it has rows, is over at a known time, is not protected, and nothing is still
  // being recorded.
  predicate MayGo(rows: seq<Row>, protectedMeetings: set<MeetingId>, meeting: MeetingId) {
    var own := RowsOf(rows, meeting);
    && own != [] && own[0].meetingEnded && own[0].endedAt.Some? && meeting !in protectedMeetings
    && forall i | 0 <= i < |own| :: !own[i].active
  }

  function SizeOf(rows: seq<Row>, meeting: MeetingId): nat {
    KnownBytes(RowsOf(rows, meeting))
  }

  function EndOf(rows: seq<Row>, protectedMeetings: set<MeetingId>, meeting: MeetingId): int
    requires MayGo(rows, protectedMeetings, meeting)
  {
    RowsOf(rows, meeting)[0].endedAt.value
  }

  // The groups that may go are, meeting by meeting, those of the table.
  lemma DeletablesAreMayGo(rows: seq<Row>, protectedMeetings: set<MeetingId>, meeting: MeetingId)
    ensures MayGo(rows, protectedMeetings, meeting) <==>
      exists group :: group in Deletables(Meetings(rows), protectedMeetings) && group.meeting == meeting
    ensures forall group :: group in Deletables(Meetings(rows), protectedMeetings) && group.meeting == meeting ==>
      && MayGo(rows, protectedMeetings, meeting) && group.sizeBytes == SizeOf(rows, meeting)
      && group.endedAt == Some(EndOf(rows, protectedMeetings, meeting))
  {
    hide Deletables, KnownBytes, Grouped, RowsOf, Distinct, AllMeasured;
    GroupedDistinct(rows);
    GroupHoldsTheRows(rows, meeting);
    FindMeasured(Grouped(rows), meeting);
    DeletablesSorted(Meetings(rows), protectedMeetings);
    forall group | group in Meetings(rows) && group.meeting == meeting
      ensures Find(Meetings(rows), meeting) == Some(group)
    {
      FindIsMember(Meetings(rows), group);
    }
    if MayGo(rows, protectedMeetings, meeting) {
      var group := Find(Meetings(rows), meeting).value;
      FindIsMember(Meetings(rows), group);
      assert group in Deletables(Meetings(rows), protectedMeetings);
    }
  }

  // Exactly the meetings that may go and ended at or before the cutoff are expired.
  lemma ExpiredExactly(rows: seq<Row>, protectedMeetings: set<MeetingId>, settings: Settings, now: int, meeting: MeetingId)
    ensures meeting in Aged(Meetings(rows), protectedMeetings, settings, now) <==>
      && settings.retentionDays.Some? && MayGo(rows, protectedMeetings, meeting)
      && EndOf(rows, protectedMeetings, meeting) <= now - settings.retentionDays.value * DAY_MS
  {
    hide Deletables, MayGo, Meetings;
    DeletablesAreMayGo(rows, protectedMeetings, meeting);
  }

  // Only meetings that may go are deleted, and beyond the expired ones only nonempty ones.
  lemma DeletedMayGo(rows: seq<Row>, protectedMeetings: set<MeetingId>, settings: Settings, now: int, meeting: MeetingId)
    requires meeting in Deleted(Meetings(rows), protectedMeetings, settings, now)
    ensures MayGo(rows, protectedMeetings, meeting)
    ensures meeting in Aged(Meetings(rows), protectedMeetings, settings, now) || SizeOf(rows, meeting) > 0
  {
    hide Deletables, MayGo, Meetings, SizeOf, EndOf, Aged, KeptBytes, Evicted, Unresolved;
    var groups := Meetings(rows);
    var aged := Aged(groups, protectedMeetings, settings, now);
    DeletablesAreMayGo(rows, protectedMeetings, meeting);
    ExpiredExactly(rows, protectedMeetings, settings, now, meeting);
    if meeting !in aged {
      EvictedMembers(Deletables(groups, protectedMeetings), aged, KeptBytes(groups, aged), settings.storageLimitGiB.value * GIB_BYTES);
      var i :| 0 <= i < |Deletables(groups, protectedMeetings)| && Deletables(groups, protectedMeetings)[i].meeting == meeting
        && Takeable(Deletables(groups, protectedMeetings)[i], aged);
      assert Deletables(groups, protectedMeetings)[i] in Deletables(groups, protectedMeetings);
    }
  }

  // ---------- The budget ----------

  // The bytes of all rows that belong to a meeting.
  function Bytes(rows: seq<Row>): nat {
    if rows == [] then 0
    else
      var last := rows[|rows| - 1];
      Bytes(rows[..|rows| - 1]) + if last.meeting.Some? && last.size.Some? then last.size.value else 0
  }

  function Size(row: Row): nat {
    if row.size.Some? then row.size.value else 0
  }

  lemma {:induction false} KeptBytesSplit(groups: seq<Group>)
    requires groups != []
    ensures KeptBytes(AllMeasured(groups), {}) == KnownBytes(groups[0].recordings) + KeptBytes(AllMeasured(groups[1..]), {})
  {
    assert AllMeasured(groups)[1..] == AllMeasured(groups[1..]);
  }

  lemma {:induction false} AddedBytes(groups: seq<Group>, row: Row)
    requires row.meeting.Some?
    ensures KeptBytes(AllMeasured(Added(groups, row)), {}) == KeptBytes(AllMeasured(groups), {}) + Size(row)
  {
    KeptBytesSplit(Added(groups, row));
    if groups == [] {
      assert [row][..0] == [];
    } else {
      KeptBytesSplit(groups);
      if groups[0].meeting == row.meeting.value {
        var own := groups[0].recordings;
        assert (own + [row])[..|own|] == own;
        assert Added(groups, row)[1..] == groups[1..];
      } else {
        AddedBytes(groups[1..], row);
        assert Added(groups, row)[1..] == Added(groups[1..], row);
      }
    }
  }

  lemma {:induction false} GroupedBytes(rows: seq<Row>)
    ensures KeptBytes(Meetings(rows), {}) == Bytes(rows)
  {
    if rows != [] {
      var n := |rows| - 1;
      GroupedBytes(rows[..n]);
      if rows[n].meeting.Some? {
        AddedBytes(Grouped(rows[..n]), rows[n]);
      }
    }
  }

  lemma MeetingsWithout(rows: seq<Row>, gone: set<MeetingId>)
    ensures Meetings(Without(rows, gone)) == WithoutGroups(Meetings(rows), gone)
  {
    GroupedWithout(rows, gone);
    MeasuredWithout(Grouped(rows), gone);
  }

  // What the pass counts as kept is what the rows left in the table hold.
  lemma KeptIsWhatRemains(rows: seq<Row>, gone: set<MeetingId>)
    ensures KeptBytes(Meetings(rows), gone) == Bytes(Without(rows, gone))
  {
    MeetingsWithout(rows, gone);
    WithoutGroupsBytes(Meetings(rows), gone);
    GroupedBytes(Without(rows, gone));
  }

  // Some recording of a meeting in the table has a size that could not be found out.
  predicate SizeUnknown(rows: seq<Row>) {
    exists row | row in rows :: row.meeting.Some? && row.size.None?
  }

  lemma {:induction false} RowsOfMembers(rows: seq<Row>, meeting: MeetingId)
    ensures forall row :: row in RowsOf(rows, meeting) <==> row in rows && row.meeting == Some(meeting)
  {
    if rows != [] {
      var n := |rows| - 1;
      RowsOfMembers(rows[..n], meeting);
      assert forall row :: row in rows <==> row in rows[..n] || row == rows[n];
    }
  }

  // A group has an unknown size exactly when one of the rows of its meeting has.
  lemma UnknownOfGroup(rows: seq<Row>, group: Group)
    requires group in Meetings(rows)
    ensures group.sizeKnown <==> forall row | row in rows && row.meeting == Some(group.meeting) :: row.size.Some?
  {
    hide Grouped, RowsOf, Distinct;
    GroupedDistinct(rows);
    FindIsMember(Meetings(rows), group);
    FindMeasured(Grouped(rows), group.meeting);
    GroupHoldsTheRows(rows, group.meeting);
    RowsOfMembers(rows, group.meeting);
    assert forall row :: row in group.recordings <==> exists i :: 0 <= i < |group.recordings| && group.recordings[i] == row;
  }

  lemma GroupOfRow(rows: seq<Row>, row: Row) returns (group: Group)
    requires row in rows && row.meeting.Some?
    ensures group in Meetings(rows) && group.meeting == row.meeting.value
  {
    hide Grouped, RowsOf, Distinct;
    GroupedDistinct(rows);
    RowsOfMembers(rows, row.meeting.value);
    GroupHoldsTheRows(rows, row.meeting.value);
    FindMeasured(Grouped(rows), row.meeting.value);
    group := Find(Meetings(rows), row.meeting.value).value;
    FindIsMember(Meetings(rows), group);
  }

  lemma UnresolvedIs(rows: seq<Row>)
    ensures Unresolved(Meetings(rows), {}) <==> SizeUnknown(rows)
  {
    hide Meetings;
    var groups := Meetings(rows);
    forall i | 0 <= i < |groups| && !groups[i].sizeKnown ensures SizeUnknown(rows) {
      UnknownOfGroup(rows, groups[i]);
    }
    if row :| row in rows && row.meeting.Some? && row.size.None? {
      var group := GroupOfRow(rows, row);
      UnknownOfGroup(rows, group);
      var i :| 0 <= i < |groups| && groups[i] == group;
    }
  }

  lemma UnresolvedRemains(rows: seq<Row>, gone: set<MeetingId>)
    ensures Unresolved(Meetings(rows), gone) <==> SizeUnknown(Without(rows, gone))
  {
    hide Meetings, Without, SizeUnknown;
    var groups, left := Meetings(rows), Meetings(Without(rows, gone));
    UnresolvedIs(Without(rows, gone));
    MeetingsWithout(rows, gone);
    forall group ensures group in left <==> group in groups && group.meeting !in gone {
      WithoutGroupsMembers(groups, gone, group);
    }
    if Unresolved(groups, gone) {
      var i :| 0 <= i < |groups| && groups[i].meeting !in gone && !groups[i].sizeKnown;
      assert groups[i] in left;
    }
    if Unresolved(left, {}) {
      var i :| 0 <= i < |left| && !left[i].sizeKnown;
      assert left[i] in groups;
    }
  }

  // With a limit, a pass ends in one of three ways: deferred, with just the expired meetings gone,
  // because a kept size is unknown; within the limit; or with no nonempty meeting left that may go.
  lemma BudgetIsMet(rows: seq<Row>, protectedMeetings: set<MeetingId>, settings: Settings, now: int)
    requires settings.storageLimitGiB.Some?
    ensures var aged := Aged(Meetings(rows), protectedMeetings, settings, now);
      var deleted := Deleted(Meetings(rows), protectedMeetings, settings, now);
      if SizeUnknown(Without(rows, aged)) then deleted == aged
      else
        || Bytes(Without(rows, deleted)) <= settings.storageLimitGiB.value * GIB_BYTES
        || forall meeting | MayGo(rows, protectedMeetings, meeting) && meeting !in deleted :: SizeOf(rows, meeting) == 0
  {
    hide Deletables, MayGo, Meetings, SizeOf, EndOf, Aged, KeptBytes, Evicted, Unresolved, Bytes, Without, SizeUnknown, Distinct;
    var groups := Meetings(rows);
    var aged := Aged(groups, protectedMeetings, settings, now);
    var deleted := Deleted(groups, protectedMeetings, settings, now);
    var oldestFirst := Deletables(groups, protectedMeetings);
    var limit := settings.storageLimitGiB.value * GIB_BYTES;
    UnresolvedRemains(rows, aged);
    if !SizeUnknown(Without(rows, aged)) {
      GroupsInOrder(rows, protectedMeetings);
      EvictedEnough(oldestFirst, groups, aged, limit);
      KeptIsWhatRemains(rows, deleted);
      if KeptBytes(groups, deleted) > limit {
        forall meeting | MayGo(rows, protectedMeetings, meeting) && meeting !in deleted ensures SizeOf(rows, meeting) == 0 {
          DeletablesAreMayGo(rows, protectedMeetings, meeting);
        }
      }
    } else {
      assert aged + {} == aged;
    }
  }

  lemma GroupsInOrder(rows: seq<Row>, protectedMeetings: set<MeetingId>)
    ensures Distinct(Meetings(rows)) && Distinct(Deletables(Meetings(rows), protectedMeetings))
    ensures OldestFirst(Deletables(Meetings(rows), protectedMeetings))
    ensures forall group | group in Deletables(Meetings(rows), protectedMeetings) :: group in Meetings(rows)
  {
    GroupedDistinct(rows);
    DeletablesSorted(Meetings(rows), protectedMeetings);
    var oldestFirst := Deletables(Meetings(rows), protectedMeetings);
    forall i, j | 0 <= i < j < |oldestFirst| ensures oldestFirst[i].meeting != oldestFirst[j].meeting {
      assert Older(oldestFirst[i], oldestFirst[j]);
      if oldestFirst[i].meeting == oldestFirst[j].meeting {
        FindIsMember(Meetings(rows), oldestFirst[i]);
        FindIsMember(Meetings(rows), oldestFirst[j]);
      }
    }
  }

  // One of two meetings that may go ended earlier, or at the same time and sorts first.
  predicate EndedFirst(rows: seq<Row>, protectedMeetings: set<MeetingId>, a: MeetingId, b: MeetingId)
    requires MayGo(rows, protectedMeetings, a) && MayGo(rows, protectedMeetings, b)
  {
    var x, y := EndOf(rows, protectedMeetings, a), EndOf(rows, protectedMeetings, b);
    x < y || (x == y && a < b)
  }

  // The budget takes the oldest: a nonempty meeting that may go and is kept ended after every meeting
  // the budget took.
  lemma OldestGoFirst(rows: seq<Row>, protectedMeetings: set<MeetingId>, settings: Settings, now: int, taken: MeetingId, kept: MeetingId)
    requires MayGo(rows, protectedMeetings, taken) && MayGo(rows, protectedMeetings, kept)
    requires var aged := Aged(Meetings(rows), protectedMeetings, settings, now);
      taken in Evictions(Meetings(rows), protectedMeetings, settings, aged)
    requires kept !in Deleted(Meetings(rows), protectedMeetings, settings, now) && SizeOf(rows, kept) > 0
    ensures EndedFirst(rows, protectedMeetings, taken, kept)
  {
    hide Deletables, MayGo, Meetings, SizeOf, EndOf, Aged, KeptBytes, Evicted, Unresolved, Distinct, OldestFirst, Older;
    var groups := Meetings(rows);
    var aged := Aged(groups, protectedMeetings, settings, now);
    var oldestFirst := Deletables(groups, protectedMeetings);
    var limit := settings.storageLimitGiB.value * GIB_BYTES;
    DeletablesAreMayGo(rows, protectedMeetings, taken);
    DeletablesAreMayGo(rows, protectedMeetings, kept);
    GroupsInOrder(rows, protectedMeetings);
    var i :| 0 <= i < |oldestFirst| && oldestFirst[i].meeting == kept;
    var j :| 0 <= j < |oldestFirst| && oldestFirst[j].meeting == taken;
    if i < j {
      EvictedOldestFirst(oldestFirst, aged, KeptBytes(groups, aged), limit, i, j);
    }
    OrderOf(oldestFirst, j, i);
  }

  lemma OrderOf(oldestFirst: seq<Group>, i: nat, j: nat)
    requires OldestFirst(oldestFirst) && i < j < |oldestFirst| && oldestFirst[i].endedAt.Some? && oldestFirst[j].endedAt.Some?
    ensures var x, y := oldestFirst[i].endedAt.value, oldestFirst[j].endedAt.value;
      x < y || (x == y && oldestFirst[i].meeting < oldestFirst[j].meeting)
  {
  }

  // The budget takes no more than it needs: with its newest meeting kept, the rest would be over.
  lemma NewestWasNeeded(rows: seq<Row>, protectedMeetings: set<MeetingId>, settings: Settings, now: int) returns (newest: MeetingId)
    requires var aged := Aged(Meetings(rows), protectedMeetings, settings, now);
      Evictions(Meetings(rows), protectedMeetings, settings, aged) != {}
    ensures var aged := Aged(Meetings(rows), protectedMeetings, settings, now);
      var evictions := Evictions(Meetings(rows), protectedMeetings, settings, aged);
      && newest in evictions && settings.storageLimitGiB.Some?
      && Bytes(Without(rows, aged + (evictions - {newest}))) > settings.storageLimitGiB.value * GIB_BYTES
      && forall meeting | meeting in evictions && meeting != newest ::
           MayGo(rows, protectedMeetings, meeting) && MayGo(rows, protectedMeetings, newest) && EndedFirst(rows, protectedMeetings, meeting, newest)
  {
    hide Deletables, MayGo, Meetings, SizeOf, EndOf, Aged, KeptBytes, Evicted, Unresolved, Distinct, OldestFirst, Older, Bytes, Without;
    var groups := Meetings(rows);
    var aged := Aged(groups, protectedMeetings, settings, now);
    var oldestFirst := Deletables(groups, protectedMeetings);
    var limit := settings.storageLimitGiB.value * GIB_BYTES;
    GroupsInOrder(rows, protectedMeetings);
    var evictions := Evicted(oldestFirst, aged, KeptBytes(groups, aged), limit);
    var k := EvictedNeeded(oldestFirst, groups, aged, limit);
    newest := oldestFirst[k].meeting;
    KeptIsWhatRemains(rows, aged + (evictions - {newest}));
    assert oldestFirst[k] in oldestFirst;
    DeletablesAreMayGo(rows, protectedMeetings, newest);
    EvictedMembers(oldestFirst, aged, KeptBytes(groups, aged), limit);
    forall meeting | meeting in evictions && meeting != newest
      ensures MayGo(rows, protectedMeetings, meeting) && EndedFirst(rows, protectedMeetings, meeting, newest)
    {
      DeletablesAreMayGo(rows, protectedMeetings, meeting);
      var i :| 0 <= i < |oldestFirst| && oldestFirst[i].meeting == meeting && Takeable(oldestFirst[i], aged);
      assert oldestFirst[i] in oldestFirst;
      OrderOf(oldestFirst, i, k);
    }
  }

  // A second pass at the same time over what the first one left deletes nothing.
  lemma SecondPassDeletesNothing(rows: seq<Row>, protectedMeetings: set<MeetingId>, settings: Settings, now: int)
    ensures var left := Without(rows, Deleted(Meetings(rows), protectedMeetings, settings, now));
      Deleted(Meetings(left), protectedMeetings, settings, now) == {}
  {
    hide Deletables, Meetings, Aged, KeptBytes, Evicted, Unresolved, Distinct, Bytes, Without, SizeUnknown;
    var groups := Meetings(rows);
    var aged := Aged(groups, protectedMeetings, settings, now);
    var deleted := Deleted(groups, protectedMeetings, settings, now);
    var left := Without(rows, deleted);
    var others := Meetings(left);
    NothingMoreExpired(rows, protectedMeetings, settings, now, deleted);
    if settings.storageLimitGiB.Some? {
      UnresolvedRemains(rows, deleted);
      UnresolvedIs(left);
      if Unresolved(groups, aged) {
        assert aged + {} == aged;
      } else {
        GroupsInOrder(rows, protectedMeetings);
        GroupsInOrder(left, protectedMeetings);
        var limit := settings.storageLimitGiB.value * GIB_BYTES;
        EvictedEnough(Deletables(groups, protectedMeetings), groups, aged, limit);
        KeptIsWhatRemains(rows, deleted);
        GroupedBytes(left);
        if KeptBytes(groups, deleted) <= limit {
          NothingOverLimit(Deletables(others, protectedMeetings), {}, KeptBytes(others, {}), limit);
        } else {
          NothingToTake(rows, protectedMeetings, deleted);
          NothingEvicted(Deletables(others, protectedMeetings), {}, KeptBytes(others, {}), limit);
        }
      }
    }
  }

  lemma {:induction false} NothingEvicted(oldestFirst: seq<Group>, gone: set<MeetingId>, total: int, limit: int)
    requires forall i | 0 <= i < |oldestFirst| :: !Takeable(oldestFirst[i], gone)
    ensures Evicted(oldestFirst, gone, total, limit) == {}
  {
    if oldestFirst != [] {
      NothingEvicted(oldestFirst[1..], gone, total, limit);
    }
  }

  lemma NothingOverLimit(oldestFirst: seq<Group>, gone: set<MeetingId>, total: int, limit: int)
    requires total <= limit
    ensures Evicted(oldestFirst, gone, total, limit) == {}
  {
  }

  // The groups that may go after a deletion are those of before that were kept.
  lemma DeletablesAfter(rows: seq<Row>, protectedMeetings: set<MeetingId>, gone: set<MeetingId>, group: Group)
    ensures group in Deletables(Meetings(Without(rows, gone)), protectedMeetings) <==>
      group in Deletables(Meetings(rows), protectedMeetings) && group.meeting !in gone
  {
    hide Deletables, Deletable, Without;
    GroupedDistinct(rows);
    GroupedDistinct(Without(rows, gone));
    DeletablesSorted(Meetings(rows), protectedMeetings);
    DeletablesSorted(Meetings(Without(rows, gone)), protectedMeetings);
    MeetingsWithout(rows, gone);
    WithoutGroupsMembers(Meetings(rows), gone, group);
  }

  lemma NothingMoreExpired(rows: seq<Row>, protectedMeetings: set<MeetingId>, settings: Settings, now: int, gone: set<MeetingId>)
    requires Aged(Meetings(rows), protectedMeetings, settings, now) <= gone
    ensures Aged(Meetings(Without(rows, gone)), protectedMeetings, settings, now) == {}
  {
    hide Deletables, Meetings, Without;
    forall group | group in Deletables(Meetings(Without(rows, gone)), protectedMeetings)
      ensures group in Deletables(Meetings(rows), protectedMeetings) && group.meeting !in gone
    {
      DeletablesAfter(rows, protectedMeetings, gone, group);
    }
  }

  lemma NothingToTake(rows: seq<Row>, protectedMeetings: set<MeetingId>, gone: set<MeetingId>)
    requires forall group | group in Deletables(Meetings(rows), protectedMeetings) :: !Takeable(group, gone)
    ensures forall i | 0 <= i < |Deletables(Meetings(Without(rows, gone)), protectedMeetings)| ::
      !Takeable(Deletables(Meetings(Without(rows, gone)), protectedMeetings)[i], {})
  {
    hide Deletables, Meetings, Without;
    var left := Deletables(Meetings(Without(rows, gone)), protectedMeetings);
    forall i | 0 <= i < |left| ensures !Takeable(left[i], {}) {
      DeletablesAfter(rows, protectedMeetings, gone, left[i]);
    }
  }
}
