/** The two files of scripts/record-deployment.py: a marker that says how an installation
    began and whether it completed, and the deployment record. Both live in one directory.
    Each file appears whole (its content is synced before it is linked or renamed); what a
    crash can lose is the directory entry, until the directory is synced. */
module DeploymentRecord {
  import opened Outcomes

  datatype Mode = Fresh | Legacy | Recorded
  datatype Phase = Pending | Complete

  /** What parsing the marker file gives: a valid state or something `state` refuses. */
  datatype Marker = Marker(mode: Mode, phase: Phase) | Junk

  type Timestamp = int

  /** A directory entry: its value now, and every value that it may have after a crash. */
  datatype Entry<T(==)> = Entry(now: Option<T>, survivors: set<Option<T>>)

  datatype Disk = Disk(marker: Entry<Marker>, record: Entry<Timestamp>)

  // ---- what the system calls do to an entry ----

  /** os.link: fails silently on an existing name. */
  function Link<T(==)>(e: Entry<T>, value: T): Entry<T>
  {
    if e.now.Some? then e else Entry(Some(value), e.survivors + {Some(value)})
  }

  /** os.replace. */
  function Replace<T(==)>(e: Entry<T>, value: T): Entry<T>
  {
    Entry(Some(value), e.survivors + {Some(value)})
  }

  /** os.fsync on the directory. */
  function Sync(d: Disk): Disk
  {
    Disk(Entry(d.marker.now, {d.marker.now}), Entry(d.record.now, {d.record.now}))
  }

  predicate Synced(d: Disk)
  {
    d == Sync(d)
  }

  // ---- the two operations, one system call at a time ----

  datatype Process =
    | Begin(legacy: bool)                        // about to look whether a record exists
    | BeginLink(mode: Mode)                      // about to link the marker
    | BeginSync                                  // about to sync the directory
    | BeginRead                                  // about to validate the marker that is there
    | Complete(at: Timestamp)                    // about to read the marker
    | CompleteLink(at: Timestamp, mode: Mode)    // about to link the record
    | CompleteSync(mode: Mode)                   // about to sync the directory
    | CompleteReplace(mode: Mode)                // about to replace the marker
    | CompleteFinalSync(mode: Mode)              // about to sync the directory again
    | Done                                       // returned, raised or killed

  /** One system call of a process. */
  function Call(d: Disk, p: Process): (Disk, Process)
  {
    match p
    case Begin(legacy) =>
      (d, BeginLink(if d.record.now.Some? then Recorded else if legacy then Legacy else Fresh))
    case BeginLink(mode) => (d.(marker := Link(d.marker, Marker(mode, Pending))), BeginSync)
    case BeginSync => (Sync(d), BeginRead)
    case BeginRead => (d, Done)
    case Complete(at) =>
      if d.marker.now.None? || d.marker.now.value.Junk? then (d, Done)
      else
        var value := d.marker.now.value;
        (d, if value.phase == Phase.Complete then Done
            else if value.mode == Fresh then CompleteLink(at, value.mode)
            else CompleteReplace(value.mode))
    case CompleteLink(at, mode) => (d.(record := Link(d.record, at)), CompleteSync(mode))
    case CompleteSync(mode) => (Sync(d), CompleteReplace(mode))
    case CompleteReplace(mode) =>
      (d.(marker := Replace(d.marker, Marker(mode, Phase.Complete))), CompleteFinalSync(mode))
    case CompleteFinalSync(mode) => (Sync(d), Done)
    case Done => (d, Done)
  }

  /** How many calls a process may still make. */
  function CallsLeft(p: Process): nat
  {
    match p
    case Begin(_) => 4 case BeginLink(_) => 3 case BeginSync => 2 case BeginRead => 1
    case Complete(_) => 5 case CompleteLink(_, _) => 4 case CompleteSync(_) => 3
    case CompleteReplace(_) => 2 case CompleteFinalSync(_) => 1
    case Done => 0
  }

  /** The disk when a process has run alone to its end. */
  function Alone(d: Disk, p: Process): Disk
    decreases CallsLeft(p)
  {
    if p.Done? then d
    else
      var called := Call(d, p);
      Alone(called.0, called.1)
  }

  lemma BeginAlone(d: Disk, legacy: bool)
    ensures var mode := if d.record.now.Some? then Recorded else if legacy then Legacy else Fresh;
            Alone(d, Process.Begin(legacy)) == Sync(d.(marker := Link(d.marker, Marker(mode, Pending))))
  {
    var mode := if d.record.now.Some? then Recorded else if legacy then Legacy else Fresh;
    var linked := d.(marker := Link(d.marker, Marker(mode, Pending)));
    assert Alone(linked, BeginSync) == Alone(Sync(linked), BeginRead) == Sync(linked);
    assert Alone(d, BeginLink(mode)) == Alone(linked, BeginSync);
  }

  lemma CompleteAlone(d: Disk, at: Timestamp, mode: Mode)
    requires d.marker.now == Some(Marker(mode, Pending))
    ensures var recorded := if mode == Fresh then Sync(d.(record := Link(d.record, at))) else d;
            Alone(d, Process.Complete(at))
            == Sync(recorded.(marker := Replace(recorded.marker, Marker(mode, Phase.Complete))))
  {
    if mode == Fresh {
      var linked := d.(record := Link(d.record, at));
      assert Alone(linked, CompleteSync(mode)) == Alone(Sync(linked), CompleteReplace(mode));
    }
  }

  datatype World = World(disk: Disk, processes: seq<Process>)

  /** Processes start, make calls in any interleaving and may be killed between any two of
      them; a crash ends them all and leaves each entry with any of its survivors. */
  datatype Action =
    | Start(p: Process)
    | Step(who: nat)
    | Kill(who: nat)
    | Crash(marker: Option<Marker>, record: Option<Timestamp>)

  predicate Possible(w: World, a: Action)
  {
    match a
    case Start(p) => p.Begin? || p.Complete?
    case Step(who) => who < |w.processes|
    case Kill(who) => who < |w.processes|
    case Crash(marker, record) => marker in w.disk.marker.survivors && record in w.disk.record.survivors
  }

  function Next(w: World, a: Action): World
    requires Possible(w, a)
  {
    match a
    case Start(p) => w.(processes := w.processes + [p])
    case Step(who) =>
      var called := Call(w.disk, w.processes[who]);
      World(called.0, w.processes[who := called.1])
    case Kill(who) => w.(processes := w.processes[who := Done])
    case Crash(marker, record) => World(Disk(Entry(marker, {marker}), Entry(record, {record})), [])
  }

  // ---- what is durable ----

  /** No crash can lose the marker or its mode. */
  ghost predicate DurableMode(d: Disk, mode: Mode)
  {
    forall v :: v in d.marker.survivors ==> v.Some? && v.value.Marker? && v.value.mode == mode
  }

  ghost predicate DurablyComplete(d: Disk)
  {
    forall v :: v in d.marker.survivors ==> v.Some? && v.value.Marker? && v.value.phase == Phase.Complete
  }

  predicate DurableRecord(d: Disk, at: Timestamp)
  {
    d.record.survivors == {Some(at)}
  }

  // ---- the invariant ----

  /** What a process knows at its program point. No crash happened since it read the marker. */
  predicate Knows(d: Disk, p: Process)
  {
    match p
    case CompleteLink(_, mode) => HasMode(d, mode) && mode == Fresh
    case CompleteSync(mode) => HasMode(d, mode) && mode == Fresh && d.record.now.Some?
    case CompleteReplace(mode) => HasMode(d, mode) && (mode == Fresh ==> SafeRecord(d))
    case CompleteFinalSync(mode) => HasMode(d, mode) && d.marker.now.value.phase == Phase.Complete
    case _ => true
  }

  predicate HasMode(d: Disk, mode: Mode)
  {
    d.marker.now.Some? && d.marker.now.value.Marker? && d.marker.now.value.mode == mode
  }

  predicate SafeRecord(d: Disk)
  {
    d.record.now.Some? && DurableRecord(d, d.record.now.value)
  }

  ghost predicate Valid(w: World)
  {
    && w.disk.marker.now in w.disk.marker.survivors
    && w.disk.record.now in w.disk.record.survivors
    && (Some(Marker(Fresh, Phase.Complete)) in w.disk.marker.survivors ==> SafeRecord(w.disk))
    && forall i :: 0 <= i < |w.processes| ==> Knows(w.disk, w.processes[i])
  }

  /** What no call does: change the mode of the marker that is there, take back its completion,
      or change the record that is there. */
  predicate Keeps(before: Disk, after: Disk)
  {
    && (before.marker.now.Some? ==> after.marker.now.Some?)
    && (before.marker.now.Some? && before.marker.now.value.Marker? ==>
          HasMode(after, before.marker.now.value.mode)
          && (before.marker.now.value.phase == Phase.Complete ==> after.marker.now.value.phase == Phase.Complete))
    && (before.record.now.Some? ==> after.record.now == before.record.now)
    && (SafeRecord(before) ==> SafeRecord(after))
  }

  lemma CallKeeps(d: Disk, p: Process)
    requires Valid(World(d, [p]))
    ensures var called := Call(d, p);
            Keeps(d, called.0) && Valid(World(called.0, [called.1]))
  {
    assert Knows(d, [p][0]);
  }

  /** The process that did not move still knows what it knew. */
  lemma OthersKeepKnowing(before: Disk, after: Disk, p: Process)
    requires Keeps(before, after) && Knows(before, p)
    ensures Knows(after, p)
  {
  }

  lemma NextValid(w: World, a: Action)
    requires Valid(w) && Possible(w, a)
    ensures Valid(Next(w, a))
  {
    if a.Step? {
      var p := w.processes[a.who];
      CallKeeps(w.disk, p);
      var called := Call(w.disk, p);
      assert Knows(called.0, [called.1][0]);
      var processes := w.processes[a.who := called.1];
      forall i | 0 <= i < |processes|
        ensures Knows(called.0, processes[i])
      {
        if i != a.who {
          OthersKeepKnowing(w.disk, called.0, w.processes[i]);
        }
      }
    } else if a.Kill? {
      assert Knows(w.disk, Done);
    }
  }

  /** One action never undoes what is durable. */
  lemma NextDurable(w: World, a: Action, mode: Mode, at: Timestamp)
    requires Valid(w) && Possible(w, a)
    ensures DurableMode(w.disk, mode) ==> DurableMode(Next(w, a).disk, mode)
    ensures DurablyComplete(w.disk) ==> DurablyComplete(Next(w, a).disk)
    ensures DurableRecord(w.disk, at) ==> DurableRecord(Next(w, a).disk, at)
  {
    if a.Step? {
      assert Knows(w.disk, w.processes[a.who]);
    }
  }

  // ---- whole histories ----

  ghost predicate Runs(w: World, actions: seq<Action>)
    decreases actions
  {
    actions == [] || (Possible(w, actions[0]) && Runs(Next(w, actions[0]), actions[1..]))
  }

  ghost function After(w: World, actions: seq<Action>): World
    requires Runs(w, actions)
    decreases actions
  {
    if actions == [] then w else After(Next(w, actions[0]), actions[1..])
  }

  /** Over every interleaving of begin and complete, kill, crash and retry: a durable marker's
      mode never changes, durable completion is never taken back, a durable record never
      changes, and a fresh installation can be complete after a crash only if its record
      survives with it. */
  lemma {:induction false} HistoryDurable(w: World, actions: seq<Action>, mode: Mode, at: Timestamp)
    requires Valid(w) && Runs(w, actions)
    ensures var end := After(w, actions);
            && Valid(end)
            && (DurableMode(w.disk, mode) ==> DurableMode(end.disk, mode))
            && (DurablyComplete(w.disk) ==> DurablyComplete(end.disk))
            && (DurableRecord(w.disk, at) ==> DurableRecord(end.disk, at))
            && (Some(Marker(Fresh, Phase.Complete)) in end.disk.marker.survivors ==>
                  exists t :: DurableRecord(end.disk, t))
    decreases actions
  {
    if actions == [] {
      assert SafeRecord(w.disk) ==> DurableRecord(w.disk, w.disk.record.now.value);
    } else {
      NextValid(w, actions[0]);
      NextDurable(w, actions[0], mode, at);
      HistoryDurable(Next(w, actions[0]), actions[1..], mode, at);
    }
  }

  /** Any synced directory is a valid place to start from, unless it already claims a fresh
      completed installation without a record. */
  lemma StartsValid(d: Disk)
    requires Synced(d)
    ensures Valid(World(d, [])) <==> (d.marker.now == Some(Marker(Fresh, Phase.Complete)) ==> d.record.now.Some?)
  {
  }

  // ---- when a successful completion is durable ----

  /** The step on which a completion returns successfully, having replaced the marker or
      found it complete. */
  ghost predicate Succeeds(w: World, who: nat)
  {
    && who < |w.processes|
    && (w.processes[who].CompleteFinalSync?
        || (w.processes[who].Complete? && w.disk.marker.now.Some? && w.disk.marker.now.value.Marker?
            && w.disk.marker.now.value.phase == Phase.Complete))
  }

  /** A completion that returns successfully leaves a durably complete marker exactly when it
      was the one to replace the marker, or the marker was durably complete already. */
  lemma SuccessDurableExactlyWhen(w: World, who: nat)
    requires Valid(w) && Succeeds(w, who)
    ensures Next(w, Step(who)).processes[who] == Done
    ensures DurablyComplete(Next(w, Step(who)).disk)
            <==> w.processes[who].CompleteFinalSync? || DurablyComplete(w.disk)
  {
    assert Knows(w.disk, w.processes[who]);
  }

  const BEGUN: Disk :=
    Disk(Entry(Some(Marker(Legacy, Pending)), {Some(Marker(Legacy, Pending))}), Entry(None, {None}))

  /** One completion is killed between replacing the marker and syncing the directory. */
  function KilledThenRetried(): seq<Action>
  {
    [Start(Process.Complete(1)), Step(0), Step(0), Kill(0), Start(Process.Complete(2))]
  }

  /** The retry then succeeds and changes nothing, and a crash can still bring the pending
      marker back. */
  lemma SuccessNotDurable()
    ensures Valid(World(BEGUN, [])) && Runs(World(BEGUN, []), KilledThenRetried())
    ensures var w := After(World(BEGUN, []), KilledThenRetried());
            && Succeeds(w, 1) && Next(w, Step(1)).processes[1] == Done
            && !DurablyComplete(Next(w, Step(1)).disk)
            && Possible(Next(w, Step(1)), Crash(Some(Marker(Legacy, Pending)), None))
  {
    var pending, complete := Marker(Legacy, Pending), Marker(Legacy, Phase.Complete);
    var replaced := BEGUN.(marker := Entry(Some(complete), {Some(pending), Some(complete)}));
    var w0, w1 := World(BEGUN, []), World(BEGUN, [Process.Complete(1)]);
    var w2, w3 := World(BEGUN, [CompleteReplace(Legacy)]), World(replaced, [CompleteFinalSync(Legacy)]);
    var w4, w5 := World(replaced, [Done]), World(replaced, [Done, Process.Complete(2)]);
    assert BEGUN.marker.survivors + {Some(complete)} == replaced.marker.survivors;
    assert Next(w0, KilledThenRetried()[0]) == w1 && Next(w1, Step(0)) == w2 && Next(w2, Step(0)) == w3;
    assert Next(w3, Kill(0)) == w4 && Next(w4, KilledThenRetried()[4]) == w5;
    LastRuns(w4, KilledThenRetried()[4]);
    assert KilledThenRetried()[4..] == [KilledThenRetried()[4]];
    FirstRuns(w3, KilledThenRetried()[3..]);
    FirstRuns(w2, KilledThenRetried()[2..]);
    FirstRuns(w1, KilledThenRetried()[1..]);
    FirstRuns(w0, KilledThenRetried());
    assert Some(pending) in replaced.marker.survivors;
  }

  lemma LastRuns(w: World, a: Action)
    requires Possible(w, a)
    ensures Runs(w, [a]) && After(w, [a]) == Next(w, a)
  {
    assert Runs(Next(w, a), [a][1..]);
  }

  lemma FirstRuns(w: World, actions: seq<Action>)
    requires actions != [] && Possible(w, actions[0]) && Runs(Next(w, actions[0]), actions[1..])
    ensures Runs(w, actions) && After(w, actions) == After(Next(w, actions[0]), actions[1..])
  {
  }

  // ---- the operations run to their end ----

  /** Each operation is the run of its steps without interruption. */
  class Workspace {
    var disk: Disk

    constructor (disk: Disk)
      ensures this.disk == disk
    {
      this.disk := disk;
    }

    /** Links or replaces the marker, then syncs the directory. */
    method WriteMarker(value: Marker, replace: bool)
      modifies this
      ensures Synced(disk) && disk.record.now == old(disk.record.now)
      ensures disk.marker.now == if replace || old(disk.marker.now).None? then Some(value) else old(disk.marker.now)
    {
      if replace {
        disk := disk.(marker := Replace(disk.marker, value));
      } else {
        disk := disk.(marker := Link(disk.marker, value));
      }
      disk := Sync(disk);
    }

    method WriteRecord(at: Timestamp)
      modifies this
      ensures Synced(disk) && disk.marker.now == old(disk.marker.now)
      ensures disk.record.now == if old(disk.record.now).None? then Some(at) else old(disk.record.now)
    {
      disk := disk.(record := Link(disk.record, at));
      disk := Sync(disk);
    }

    method State() returns (r: Result<Marker>)
      ensures r.Ok? <==> disk.marker.now.Some? && disk.marker.now.value.Marker?
      ensures r.Ok? ==> disk.marker.now == Some(r.value)
      ensures r.Err? ==> r.error == if disk.marker.now.None? then "no such file"
                                    else "invalid deployment state; do not reset its boundary"
    {
      if disk.marker.now.None? {
        return Err("no such file");
      }
      if disk.marker.now.value.Junk? {
        return Err("invalid deployment state; do not reset its boundary");
      }
      return Ok(disk.marker.now.value);
    }

    /** Never resets a boundary: an existing marker stays, and the new one is pending. */
    method Begin(legacy: bool) returns (r: Result<()>)
      modifies this
      ensures Synced(disk) && disk.record.now == old(disk.record.now)
      ensures old(disk.marker.now).Some? ==> disk.marker.now == old(disk.marker.now)
      ensures old(disk.marker.now).None? ==>
        var mode := if old(disk.record.now).Some? then Recorded else if legacy then Legacy else Fresh;
        disk.marker.now == Some(Marker(mode, Pending))
      ensures r.Ok? <==> disk.marker.now != Some(Junk)
      ensures disk == Alone(old(disk), Process.Begin(legacy))
    {
      BeginAlone(disk, legacy);
      hide Alone, Call;
      var mode := if disk.record.now.Some? then Recorded else if legacy then Legacy else Fresh;
      WriteMarker(Marker(mode, Pending), false);
      var value := State();
      r := if value.Ok? then Ok(()) else Err(value.error);
    }

    /** Completes a begun installation durably; a fresh one gets its record first. */
    method Complete(at: Timestamp) returns (r: Result<()>)
      modifies this
      ensures r.Ok? <==> old(disk.marker.now).Some? && old(disk.marker.now.value).Marker?
      ensures r.Err? ==> disk == old(disk)
      ensures r.Ok? ==> disk.marker.now == Some(Marker(old(disk.marker.now.value.mode), Phase.Complete))
      ensures r.Ok? && old(disk.marker.now.value.phase) == Pending ==>
        && Synced(disk) && DurablyComplete(disk)
        && (old(disk.marker.now.value.mode) == Fresh ==> SafeRecord(disk))
        && disk.record.now == if old(disk.marker.now.value.mode) == Fresh && old(disk.record.now).None? then Some(at)
                              else old(disk.record.now)
      ensures r.Ok? && old(disk.marker.now.value.phase) == Phase.Complete ==> disk == old(disk)
      ensures r.Ok? ==>
        (DurablyComplete(disk) <==> old(disk.marker.now.value.phase) == Pending || old(DurablyComplete(disk)))
      ensures disk == Alone(old(disk), Process.Complete(at))
    {
      var value := State();
      if value.Err? {
        return Err(value.error);
      }
      if value.value.phase == Phase.Complete {
        return Ok(());
      }
      CompleteAlone(disk, at, value.value.mode);
      if value.value.mode == Fresh {
        WriteRecord(at);
      }
      WriteMarker(value.value.(phase := Phase.Complete), true);
      return Ok(());
    }
  }
}
