/**
 The version store and the operations that hold the Flow lock, as they run when
 nothing interferes. Each is a run of the steps of `VersionPinning`, so what every
 run keeps, every interleaving of these operations keeps.

 Whether a version accepts a session (its execution mode and inputs) is a parameter.
 */
module FlowVersions {
  import opened SessionTypes
  import opened Text
  import opened VersionPinning

  datatype Lane = Draft | Gray | Published | NoLane

  datatype Lanes = Lanes(draft: string, gray: string, published: string)

  const NO_LANES := Lanes("", "", "")

  /** The version that a lane points at, or nothing. */
  function LaneAt(l: Lanes, lane: Lane): string {
    match lane
    case Draft => l.draft
    case Gray => l.gray
    case Published => l.published
    case NoLane => ""
  }

  /** One lane points at the version now, and every other lane at what it pointed at before. */
  ghost predicate OnlyMoved(before: Lanes, after: Lanes, lane: Lane, version: string) {
    forall x: Lane :: LaneAt(after, x) == if x == lane && lane != NoLane then version else LaneAt(before, x)
  }

  /** The lanes at the version point nowhere now, and every other lane at what it pointed at before. */
  ghost predicate OnlyCleared(before: Lanes, after: Lanes, version: string) {
    forall x: Lane :: LaneAt(after, x) == if LaneAt(before, x) == version then "" else LaneAt(before, x)
  }

  /** A lane that is set names a version that can be loaded. */
  predicate LaneOk(root: Path, dirs: map<Path, Version>, lane: string) {
    lane != "" ==> Plain(lane) && Held(dirs, Place(root, lane)).definition && Held(dirs, Place(root, lane)).meta
  }

  ghost predicate LanesOk(root: Path, dirs: map<Path, Version>, l: Lanes) {
    forall x: Lane :: LaneOk(root, dirs, LaneAt(l, x))
  }

  /** A run of a Flow, as far as it protects its version. */
  datatype FlowRun = FlowRun(version: string, active: bool)

  /** Some active run uses the version, or any version if none is given. */
  predicate InUse(runs: map<string, FlowRun>, version: Option<string>) {
    exists id | id in runs :: runs[id].active && (version.Some? ==> runs[id].version == version.value)
  }

  /** Nothing that `task` must not touch is in the way. */
  predicate Free(pins: map<string, Pin>, task: Task) {
    forall id | id in pins :: !Conflict(task, pins[id])
  }

  lemma {:induction false} RunOne(root: Path, f: Flow, steps: seq<Step>, step: Step)
    ensures Run(root, f, steps + [step]) == Next(root, Run(root, f, steps), step)
  {
    assert (steps + [step])[..|steps|] == steps;
  }

  lemma {:induction false} OverOne(names: Names, steps: seq<Step>, step: Step)
    requires AllOver(names, steps) && Over(names, step)
    ensures AllOver(names, steps + [step])
  {
    hide Over;
  }

  class FlowStore {
    const root: Path
    var dirs: map<Path, Version>
    var pins: map<string, Pin>
    var lanes: Lanes
    var runs: map<string, FlowRun>

    function Now(): Flow
      reads this
    {
      Flow(dirs, pins, None)
    }

    constructor (root: Path)
      ensures this.root == root && Now() == NEW_FLOW && lanes == NO_LANES && runs == map[]
    {
      this.root := root;
      dirs, pins, lanes, runs := map[], map[], NO_LANES, map[];
    }

    /** Looks at every session in turn, as the holder of the lock, and stops at one in the way. */
    method Scan(task: Task, ghost before: seq<Step>, ghost f: Flow, ghost names: Names)
      returns (ok: bool, ghost steps: seq<Step>)
      requires !task.Starting? && task.checked == {}
      requires AllOver(names, before) && Run(root, f, before) == Flow(dirs, pins, Some(task))
      ensures ok <==> Free(pins, task)
      ensures AllOver(names, steps)
      ensures Run(root, f, steps) == Flow(dirs, pins, if ok then Some(task.(checked := pins.Keys)) else None)
    {
      hide Run, AllOver;
      steps := before;
      var todo := pins.Keys;
      assert pins.Keys - todo == {};
      while todo != {}
        invariant todo <= pins.Keys && AllOver(names, steps)
        invariant forall id | id in pins.Keys - todo :: !Conflict(task, pins[id])
        invariant Run(root, f, steps) == Flow(dirs, pins, Some(task.(checked := pins.Keys - todo)))
        decreases todo
      {
        var id :| id in todo;
        ghost var now := Run(root, f, steps);
        assert Conflict(now.holder.value, pins[id]) == Conflict(task, pins[id]);
        RunOne(root, f, steps, Check(id));
        OverOne(names, steps, Check(id));
        steps := steps + [Check(id)];
        if Conflict(task, pins[id]) {
          return false, steps;
        }
        assert pins.Keys - todo + {id} == pins.Keys - (todo - {id});
        todo := todo - {id};
      }
      assert pins.Keys - {} == pins.Keys;
      return true, steps;
    }

    /** Looks for an active run of a version, or of any. */
    method ActiveRun(version: Option<string>) returns (found: bool)
      ensures found <==> InUse(runs, version)
    {
      var todo := runs.Keys;
      while todo != {}
        invariant todo <= runs.Keys
        invariant forall id | id in runs.Keys - todo ::
                    !(runs[id].active && (version.Some? ==> runs[id].version == version.value))
        decreases todo
      {
        var id :| id in todo;
        if (version.None? || runs[id].version == version.value) && runs[id].active {
          return true;
        }
        todo := todo - {id};
      }
      return false;
    }

    /** Writes the three files of a version. */
    method SaveVersion(name: string, digest: Option<string>) returns (ok: bool)
      modifies this`dirs
      ensures ok <==> Trim(name) != ""
      ensures dirs == if ok then WithSaved(root, old(Now()), name, digest).dirs else old(dirs)
    {
      hide Place, Trim;
      var version := Trim(name);
      if version == "" {
        return false;
      }
      var p := Place(root, name);
      dirs := dirs[p := Stored(Held(dirs, p), digest, 0)];
      dirs := dirs[p := Stored(Held(dirs, p), digest, 1)];
      dirs := dirs[p := Stored(Held(dirs, p), digest, 2)];
      return true;
    }

    /** Points a lane at a version; the published version is what runs when none is asked for. */
    method SetStatusLane(lane: Lane, version: string)
      modifies this`lanes
      ensures OnlyMoved(old(lanes), lanes, lane, version)
      ensures lane == Published && version != "" ==> Resolved("") == version
      ensures lane != Published && old(lanes).published != "" ==> Resolved("") == old(lanes).published
    {
      match lane
      case Draft => lanes := lanes.(draft := version);
      case Gray => lanes := lanes.(gray := version);
      case Published => lanes := lanes.(published := version);
      case NoLane =>
    }

    /** Stores a version, unless a session that has not ended is pinned to another form of it. */
    method CreateFlow(name: string, digest: Option<string>, lane: Lane) returns (ok: bool, ghost steps: seq<Step>)
      modifies this`dirs, this`lanes
      ensures ok <==> Trim(name) != "" && Free(pins, Saving(Trim(name), digest, {}, 0))
      ensures ok <==>
                && Trim(name) != ""
                && forall id | id in pins && (pins[id].status == Active || pins[id].status == Paused) ::
                     pins[id].version == Trim(name) ==> digest == Some(pins[id].digest)
      ensures Run(root, old(Now()), steps) == Now() && AllOver(Names({Trim(name)}, {}), steps)
      ensures ok ==> Now() == WithSaved(root, old(Now()), name, digest)
      ensures ok ==> OnlyMoved(old(lanes), lanes, lane, Trim(name))
      ensures !ok ==> Now() == old(Now()) && lanes == old(lanes)
      ensures Plain(Trim(name)) && LanesOk(root, old(dirs), old(lanes)) ==> LanesOk(root, dirs, lanes)
    {
      hide Place, Trim, Plain, Run, Next, Free, LanesOk, AllOver, OnlyMoved;
      var version := Trim(name);
      FreeMeans(pins, version, digest);
      ghost var f, was := Now(), lanes;
      ghost var names := Names({version}, {});
      RunNone(root, f);
      if version == "" {
        NothingIsOver(names);
        return false, [];
      }
      SaveBegins(root, f, name, digest);
      ok, steps := Scan(Saving(version, digest, {}, 0), [Save(name, digest)], f, names);
      if !ok {
        return;
      }
      SaveEnds(root, f, steps, name, digest);
      WritesAreOver(names, steps);
      var saved := SaveVersion(name, digest);
      SetStatusLane(lane, version);
      steps := steps + WRITES;
      SaveKeepsLanes(root, f, was, lanes, name, digest, lane);
    }

    /** Removes a directory with everything in it. */
    method RemoveAll(p: Path, ghost f: Flow, ghost before: seq<Step>, ghost task: Task, ghost names: Names)
      returns (ghost steps: seq<Step>)
      requires AllOver(names, before)
      requires Run(root, f, before) == Flow(dirs, pins, Some(task)) && AllChecked(Flow(dirs, pins, Some(task)))
      requires task.Clearing? || (task.Deleting? && p == Place(root, task.version))
      modifies this`dirs
      ensures dirs == map q | q in old(dirs) && !(p <= q) :: old(dirs)[q]
      ensures Run(root, f, steps) == Flow(dirs, pins, Some(task)) && AllOver(names, steps)
    {
      hide Run, Place, AllOver;
      steps := before;
      var todo := set q | q in dirs && p <= q;
      while todo != {}
        invariant forall q | q in todo :: p <= q
        invariant dirs == map q | q in old(dirs) && (!(p <= q) || q in todo) :: old(dirs)[q]
        invariant Run(root, f, steps) == Flow(dirs, pins, Some(task)) && AllOver(names, steps)
        decreases todo
      {
        var q :| q in todo;
        RunOne(root, f, steps, Erase(q));
        OverOne(names, steps, Erase(q));
        steps := steps + [Erase(q)];
        dirs := dirs - {q};
        todo := todo - {q};
      }
    }

    /** Removes a version, unless a live session is pinned to that name or an active run uses it. */
    method DeleteFlowVersion(name: string) returns (ok: bool, ghost steps: seq<Step>)
      modifies this`dirs, this`lanes
      ensures ok <==> !InUse(runs, Some(name)) && Free(pins, Deleting(name, {}))
      ensures ok <==>
                && (forall id | id in runs && runs[id].active :: runs[id].version != name)
                && forall id | id in pins && (pins[id].status == Active || pins[id].status == Paused) ::
                     pins[id].version != name
      ensures Run(root, old(Now()), steps) == Now() && AllOver(Names({}, {name}), steps)
      ensures ok ==> Now() == Without(root, old(Now()), name) && OnlyCleared(old(lanes), lanes, name)
      ensures !ok ==> Now() == old(Now()) && lanes == old(lanes)
      ensures Plain(name) && LanesOk(root, old(dirs), old(lanes)) ==> LanesOk(root, dirs, lanes)
    {
      hide Place, Plain, Run, Next, Free, LanesOk, AllOver, InUse;
      ghost var f, was := Now(), lanes;
      ghost var names := Names({}, {name});
      RunNone(root, f);
      NothingIsOver(names);
      FreeMeans(pins, name, None);
      InUseMeans(runs, name);
      var busy := ActiveRun(Some(name));
      if busy {
        return false, [];
      }
      DeleteBegins(root, f, name);
      ok, steps := Scan(Deleting(name, {}), [Delete(name)], f, names);
      if !ok {
        return;
      }
      steps := RemoveAll(Place(root, name), f, steps, Deleting(name, pins.Keys), names);
      ReleaseEnds(root, f, steps, Now(), Deleting(name, pins.Keys), names);
      steps := steps + [Release];
      if lanes.draft == name {
        lanes := lanes.(draft := "");
      }
      if lanes.gray == name {
        lanes := lanes.(gray := "");
      }
      if lanes.published == name {
        lanes := lanes.(published := "");
      }
      DeleteKeepsLanes(root, f, was, lanes, name);
    }

    /** Removes the Flow with its sessions and runs, unless a session has not ended or a run is active. */
    method DeleteFlow() returns (ok: bool, ghost steps: seq<Step>)
      modifies this`dirs, this`pins, this`lanes, this`runs
      ensures ok <==>
                && (forall id | id in old(runs) :: !old(runs)[id].active)
                && forall id | id in old(pins) ::
                     old(pins)[id].status == Completed || old(pins)[id].status == Canceled
      ensures Run(root, old(Now()), steps) == Now() && AllOver(Names({}, {}), steps)
      ensures Now() == if ok then NEW_FLOW else old(Now())
      ensures lanes == (if ok then NO_LANES else old(lanes)) && runs == if ok then map[] else old(runs)
    {
      hide Run, Next, AllOver, InUse, Free;
      ghost var f := Now();
      ghost var names := Names({}, {});
      RunNone(root, f);
      NothingIsOver(names);
      FreeMeans(pins, "", None);
      InUseMeans(runs, "");
      var busy := ActiveRun(None);
      if busy {
        return false, [];
      }
      ClearBegins(root, f);
      ok, steps := Scan(Clearing({}), [Clear], f, names);
      if !ok {
        return;
      }
      ghost var task := Clearing(pins.Keys);
      steps := RemoveAll([], f, steps, task, names);
      assert dirs == map[];
      while pins.Keys != {}
        invariant dirs == map[] && pins.Keys <= task.checked && AllOver(names, steps)
        invariant Run(root, f, steps) == Flow(dirs, pins, Some(task))
        decreases pins.Keys
      {
        var id :| id in pins;
        EraseOne(root, f, steps, Flow(dirs, pins, Some(task)), id, names);
        steps := steps + [EraseSession(id)];
        pins := pins - {id};
      }
      assert pins == map[];
      ReleaseEnds(root, f, steps, Now(), task, names);
      steps := steps + [Release];
      lanes, runs := NO_LANES, map[];
    }

    /** The version to run: the one asked for, else the published, gray or draft one. */
    function Resolved(version: string): string
      reads this
    {
      if Trim(version) != "" then Trim(version)
      else if lanes.published != "" then lanes.published
      else if lanes.gray != "" then lanes.gray
      else lanes.draft
    }

    /** Starts a session pinned to the version that is loaded. */
    method CreateFlowSession(version: string, id: string, accepted: bool) returns (ok: bool, ghost steps: seq<Step>)
      modifies this`pins
      ensures ok <==> && Resolved(version) != "" && Loaded(root, dirs, Resolved(version)).Some?
                      && accepted && id !in old(pins)
      ensures Run(root, old(Now()), steps) == Now() && AllOver(Names({Trim(Resolved(version))}, {}), steps)
      ensures ok ==>
                var name := Resolved(version);
                && pins == old(pins)[id := Pin(Trim(name), Loaded(root, dirs, name).value, Active)]
                && Pinned(root, Now(), pins[id])
      ensures !ok ==> pins == old(pins)
    {
      hide Run, Next, AllOver, Place, Trim;
      ghost var f := Now();
      var name := Resolved(version);
      ghost var names := Names({Trim(name)}, {});
      RunNone(root, f);
      NothingIsOver(names);
      if name == "" || Loaded(root, dirs, name).None? || !accepted || id in pins {
        return false, [];
      }
      StartRuns(root, f, name, id);
      StartIsOver(name, id);
      var digest := Loaded(root, dirs, name).value;
      pins := pins[id := Pin(Trim(name), digest, Active)];
      return true, [Start(name), Load, Open(id), Release];
    }
  }

  /** What stands in the way of a save or a deletion, by status, name and digest. */
  lemma {:induction false} FreeMeans(pins: map<string, Pin>, version: string, digest: Option<string>)
    ensures Free(pins, Saving(version, digest, {}, 0)) <==>
            forall id | id in pins && (pins[id].status == Active || pins[id].status == Paused) ::
              pins[id].version == version ==> digest == Some(pins[id].digest)
    ensures Free(pins, Deleting(version, {})) <==>
            forall id | id in pins && (pins[id].status == Active || pins[id].status == Paused) ::
              pins[id].version != version
    ensures Free(pins, Clearing({})) <==>
            forall id | id in pins :: pins[id].status == Completed || pins[id].status == Canceled
  {
  }

  /** An active run of the version, or of any. */
  lemma {:induction false} InUseMeans(runs: map<string, FlowRun>, version: string)
    ensures !InUse(runs, Some(version)) <==> forall id | id in runs && runs[id].active :: runs[id].version != version
    ensures !InUse(runs, None) <==> forall id | id in runs :: !runs[id].active
  {
  }

  /** The version that runs: the one asked for, else the first lane that is set of published, gray and draft. */
  lemma {:induction false} ResolvedInOrder(store: FlowStore, version: string)
    ensures var r := store.Resolved(version);
            && (Trim(version) != "" ==> r == Trim(version))
            && (Trim(version) == "" && store.lanes.published != "" ==> r == store.lanes.published)
            && (Trim(version) == "" && store.lanes.published == "" && store.lanes.gray != "" ==> r == store.lanes.gray)
            && (Trim(version) == "" && store.lanes.published == "" && store.lanes.gray == "" ==> r == store.lanes.draft)
  {
    hide Trim;
  }

  lemma {:induction false} SaveBegins(root: Path, f: Flow, name: string, digest: Option<string>)
    requires f.holder.None? && Trim(name) != ""
    ensures Run(root, f, [Save(name, digest)]) == f.(holder := Some(Saving(Trim(name), digest, {}, 0)))
    ensures AllOver(Names({Trim(name)}, {}), [Save(name, digest)])
  {
    hide Trim;
    RunNone(root, f);
    RunOne(root, f, [], Save(name, digest));
    assert [] + [Save(name, digest)] == [Save(name, digest)];
  }

  lemma {:induction false} DeleteBegins(root: Path, f: Flow, name: string)
    requires f.holder.None?
    ensures Run(root, f, [Delete(name)]) == f.(holder := Some(Deleting(name, {})))
    ensures AllOver(Names({}, {name}), [Delete(name)])
  {
    RunNone(root, f);
    RunOne(root, f, [], Delete(name));
    assert [] + [Delete(name)] == [Delete(name)];
  }

  lemma {:induction false} ClearBegins(root: Path, f: Flow)
    requires f.holder.None?
    ensures Run(root, f, [Clear]) == f.(holder := Some(Clearing({})))
    ensures AllOver(Names({}, {}), [Clear])
  {
    RunNone(root, f);
    RunOne(root, f, [], Clear);
    assert [] + [Clear] == [Clear];
  }

  lemma {:induction false} ReleaseEnds(root: Path, f: Flow, steps: seq<Step>, now: Flow, task: Task, names: Names)
    requires now.holder.None? && Run(root, f, steps) == now.(holder := Some(task)) && AllOver(names, steps)
    ensures Run(root, f, steps + [Release]) == now
    ensures AllOver(names, steps + [Release])
  {
    hide Run;
    RunOne(root, f, steps, Release);
    OverOne(names, steps, Release);
  }

  lemma {:induction false} EraseOne(root: Path, f: Flow, steps: seq<Step>, now: Flow, id: string, names: Names)
    requires Run(root, f, steps) == now && AllChecked(now) && now.holder.value.Clearing? && AllOver(names, steps)
    ensures Run(root, f, steps + [EraseSession(id)]) == now.(pins := now.pins - {id})
    ensures AllOver(names, steps + [EraseSession(id)])
  {
    hide Run;
    RunOne(root, f, steps, EraseSession(id));
    OverOne(names, steps, EraseSession(id));
  }

  lemma {:induction false} WritesAreOver(names: Names, steps: seq<Step>)
    requires AllOver(names, steps)
    ensures AllOver(names, steps + WRITES)
  {
    assert AllOver(names, WRITES);
  }

  lemma {:induction false} StartIsOver(name: string, id: string)
    ensures AllOver(Names({Trim(name)}, {}), [Start(name), Load, Open(id), Release])
  {
    hide Trim;
  }

  lemma NothingIsOver(names: Names)
    ensures AllOver(names, [])
  {
  }

  lemma RunNone(root: Path, f: Flow)
    ensures Run(root, f, []) == f
  {
  }

  /** Saving a version and pointing a lane at it keeps every set lane loadable. */
  lemma {:induction false} SaveKeepsLanes(root: Path, f: Flow, l: Lanes, l': Lanes, name: string,
                                          digest: Option<string>, lane: Lane)
    requires OnlyMoved(l, l', lane, Trim(name))
    ensures Plain(Trim(name)) && LanesOk(root, f.dirs, l) ==> LanesOk(root, WithSaved(root, f, name, digest).dirs, l')
  {
    hide Plain, Trim, Place, LaneAt;
    TrimmedPlace(root, name);
    if Plain(Trim(name)) && LanesOk(root, f.dirs, l) {
      forall x: Lane ensures LaneOk(root, WithSaved(root, f, name, digest).dirs, LaneAt(l', x)) {
        assert LaneOk(root, f.dirs, LaneAt(l, x));
      }
    }
  }

  /** Deleting a version and clearing its lanes keeps every set lane loadable. */
  lemma {:induction false} DeleteKeepsLanes(root: Path, f: Flow, l: Lanes, l': Lanes, name: string)
    requires OnlyCleared(l, l', name)
    ensures Plain(name) && LanesOk(root, f.dirs, l) ==> LanesOk(root, Without(root, f, name).dirs, l')
  {
    hide Place, Plain, LaneAt;
    if Plain(name) && LanesOk(root, f.dirs, l) {
      forall x: Lane ensures LaneOk(root, Without(root, f, name).dirs, LaneAt(l', x)) {
        assert LaneOk(root, f.dirs, LaneAt(l, x));
        DeleteKeepsLane(root, f, LaneAt(l, x), name);
      }
    }
  }

  lemma {:induction false} DeleteKeepsLane(root: Path, f: Flow, lane: string, name: string)
    requires Plain(name) && LaneOk(root, f.dirs, lane)
    ensures lane != name ==> LaneOk(root, Without(root, f, name).dirs, lane)
  {
    hide Place, Plain;
    if lane != "" && lane != name {
      PlainApart(root, name, lane);
    }
  }
}
