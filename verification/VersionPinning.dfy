/**
 Flow versions on disk and the sessions pinned to them. Operations on versions hold
 the lock of their Flow, look at every session and then write; meanwhile sessions
 change status under locks of their own, and a crash may release the Flow lock at
 any moment.
 */
module VersionPinning {
  import opened SessionTypes
  import opened Text

  // ---------------------------------------------------------------- names and places

  type Path = seq<string>

  /** The parts of a name between slashes. */
  function Segments(s: string): (parts: Path)
    ensures parts != []
    decreases |s|
  {
    if s == "" then [""]
    else
      var rest := Segments(s[1..]);
      if s[0] == '/' then [""] + rest else [[s[0]] + rest[0]] + rest[1..]
  }

  /** Following the segments from a directory: `.` stays, `..` goes up. */
  function Walk(base: Path, segments: Path): Path
    decreases |segments|
  {
    if segments == [] then base
    else if segments[0] == "" || segments[0] == "." then Walk(base, segments[1..])
    else if segments[0] == ".." then Walk(if base == [] then [] else base[..|base| - 1], segments[1..])
    else Walk(base + [segments[0]], segments[1..])
  }

  /** The directory that a version name stands for, below the directory of all versions. */
  function Place(root: Path, name: string): Path {
    Walk(root, Segments(Trim(name)))
  }

  /** A name that is one directory name, free of surrounding space. */
  predicate Plain(name: string) {
    && name != "" && Trim(name) == name && name != "." && name != ".."
    && forall i | 0 <= i < |name| :: name[i] != '/'
  }

  lemma {:induction false} OneSegment(s: string)
    requires forall i | 0 <= i < |s| :: s[i] != '/'
    ensures Segments(s) == [s]
    decreases |s|
  {
    if s != "" {
      OneSegment(s[1..]);
      assert [s[0]] + s[1..] == s;
    }
  }

  /** A plain name stands for its own directory. */
  lemma {:induction false} PlainPlace(root: Path, name: string)
    requires Plain(name)
    ensures Place(root, name) == root + [name]
  {
    OneSegment(name);
    assert Walk(root + [name], []) == root + [name];
  }

  /** Plain names that differ stand for directories of which neither contains the other. */
  lemma {:induction false} PlainApart(root: Path, a: string, b: string)
    requires Plain(a) && Plain(b)
    ensures Place(root, a) <= Place(root, b) <==> a == b
  {
    hide Place, Plain;
    PlainPlace(root, a);
    PlainPlace(root, b);
    assert (root + [a])[|root|] == a && (root + [b])[|root|] == b;
  }

  /** A name with slashes is followed segment by segment. */
  lemma {:induction false} SegmentsJoin(a: string, b: string)
    ensures Segments(a + "/" + b) == Segments(a) + Segments(b)
    decreases |a|
  {
    if a == "" {
      assert "" + "/" + b == "/" + b && ("/" + b)[1..] == b;
    } else {
      assert (a + "/" + b)[1..] == a[1..] + "/" + b;
      SegmentsJoin(a[1..], b);
      assert Segments(a) != [];
    }
  }

  lemma {:induction false} WalkOn(base: Path, a: Path, b: Path)
    ensures Walk(base, a + b) == Walk(Walk(base, a), b)
    decreases |a|
  {
    if a == [] {
      assert a + b == b;
    } else {
      assert (a + b)[0] == a[0] && (a + b)[1..] == a[1..] + b;
      WalkOn(base, [], b);
      if a[0] == "" || a[0] == "." {
        WalkOn(base, a[1..], b);
      } else if a[0] == ".." {
        WalkOn(if base == [] then [] else base[..|base| - 1], a[1..], b);
      } else {
        WalkOn(base + [a[0]], a[1..], b);
      }
    }
  }

  /** A trimmed name with a slash stands for the place of its second part below that of its first. */
  lemma {:induction false} NestedPlace(root: Path, a: string, b: string)
    requires Trim(a) == a && Trim(b) == b && Trim(a + "/" + b) == a + "/" + b
    ensures Place(root, a + "/" + b) == Place(Place(root, a), b)
  {
    hide Trim, Segments, Walk;
    SegmentsJoin(a, b);
    WalkOn(root, Segments(a), Segments(b));
  }

  /** A dot stays where it is, two dots go up, and above the topmost directory there is nothing. */
  lemma {:induction false} DotPlaces(root: Path)
    ensures Place(root, ".") == root
    ensures Place(root, "..") == if root == [] then [] else root[..|root| - 1]
  {
    OneSegment(".");
    OneSegment("..");
    TrimmedEnds(".");
    TrimmedEnds("..");
    assert ["."][1..] == [] && [".."][1..] == [];
  }

  // ---------------------------------------------------------------- the store

  /** What the directory of a version holds: its definition, the digest of its compiled form, its metadata. */
  datatype Version = Version(definition: bool, compiled: Option<string>, meta: bool)

  const EMPTY := Version(false, None, false)

  datatype Pin = Pin(version: string, digest: string, status: Status)

  predicate Live(p: Pin) {
    !Ended(p.status)
  }

  /** An operation that holds the Flow lock, with the sessions it has looked at. */
  datatype Task =
    | Saving(version: string, digest: Option<string>, checked: set<string>, stage: nat)
    | Deleting(version: string, checked: set<string>)
    | Clearing(checked: set<string>)
    | Starting(version: string, found: Option<string>)

  datatype Flow = Flow(dirs: map<Path, Version>, pins: map<string, Pin>, holder: Option<Task>)

  datatype Step =
    | Save(name: string, digest: Option<string>)
    | Delete(name: string)
    | Clear
    | Start(name: string)
    | Check(id: string)
    | WriteFile
    | Erase(path: Path)
    | EraseSession(id: string)
    | Load
    | Open(id: string)
    | Release
    | Move(id: string, target: Status)
    | PublishFile(name: string, loaded: string, stage: nat)

  function Held(dirs: map<Path, Version>, p: Path): Version {
    if p in dirs then dirs[p] else EMPTY
  }

  /** Saving a version writes its definition, its compiled form if it has one, and its metadata, in this order. */
  function Stored(v: Version, digest: Option<string>, stage: nat): Version {
    if stage == 0 then v.(definition := true)
    else if stage == 1 then (if digest.Some? then v.(compiled := digest) else v)
    else v.(meta := true)
  }

  function WithStored(root: Path, dirs: map<Path, Version>, version: string, digest: Option<string>,
                      stage: nat): map<Path, Version> {
    dirs[Place(root, version) := Stored(Held(dirs, Place(root, version)), digest, stage)]
  }

  function Checked(t: Task): set<string> {
    if t.Starting? then {} else t.checked
  }

  /** Whether the operation must not go on because of a session. */
  predicate Conflict(t: Task, p: Pin) {
    && Live(p)
    && match t
       case Saving(v, d, _, _) => p.version == v && d != Some(p.digest)
       case Deleting(v, _) => p.version == v
       case Clearing(_) => true
       case Starting(_, _) => false
  }

  /** Every session that exists has been looked at. */
  predicate AllChecked(f: Flow) {
    f.holder.Some? && !f.holder.value.Starting? && f.pins.Keys <= f.holder.value.checked
  }

  /** The compiled digest that loading a version yields, if it can be run. */
  function Loaded(root: Path, dirs: map<Path, Version>, version: string): Option<string> {
    var v := Held(dirs, Place(root, version));
    if v.definition && v.meta then v.compiled else None
  }

  /** Whether an operation removes what is at a path. */
  predicate MayErase(root: Path, t: Task, p: Path) {
    t.Clearing? || (t.Deleting? && Place(root, t.version) <= p)
  }

  /** A version can be loaded with a digest exactly when its three files are there and the compiled form has it. */
  lemma {:induction false} LoadedIff(root: Path, dirs: map<Path, Version>, version: string, digest: string)
    ensures Loaded(root, dirs, version) == Some(digest) <==>
            Place(root, version) in dirs && dirs[Place(root, version)] == Version(true, Some(digest), true)
  {
    hide Place;
  }

  function Next(root: Path, f: Flow, step: Step): Flow {
    match step
    case Save(name, digest) =>
      if f.holder.None? && Trim(name) != "" then f.(holder := Some(Saving(Trim(name), digest, {}, 0))) else f
    case Delete(name) => if f.holder.None? then f.(holder := Some(Deleting(name, {}))) else f
    case Clear => if f.holder.None? then f.(holder := Some(Clearing({}))) else f
    case Start(name) => if f.holder.None? then f.(holder := Some(Starting(Trim(name), None))) else f
    case Check(id) =>
      if f.holder.None? || f.holder.value.Starting? || id !in f.pins then f
      else if Conflict(f.holder.value, f.pins[id]) then f.(holder := None)
      else f.(holder := Some(f.holder.value.(checked := f.holder.value.checked + {id})))
    case WriteFile =>
      if AllChecked(f) && f.holder.value.Saving? && f.holder.value.stage < 3 then
        var t := f.holder.value;
        f.(dirs := WithStored(root, f.dirs, t.version, t.digest, t.stage), holder := Some(t.(stage := t.stage + 1)))
      else f
    case Erase(p) =>
      if AllChecked(f) && MayErase(root, f.holder.value, p) then
        f.(dirs := f.dirs - {p})
      else f
    case EraseSession(id) =>
      if AllChecked(f) && f.holder.value.Clearing? then f.(pins := f.pins - {id}) else f
    case Load =>
      if f.holder.Some? && f.holder.value.Starting? then
        f.(holder := Some(f.holder.value.(found := Loaded(root, f.dirs, f.holder.value.version))))
      else f
    case Open(id) =>
      if f.holder.Some? && f.holder.value.Starting? && f.holder.value.found.Some? && id !in f.pins then
        f.(pins := f.pins[id := Pin(f.holder.value.version, f.holder.value.found.value, Active)])
      else f
    case Release => f.(holder := None)
    case Move(id, target) =>
      if id in f.pins && MayMove(f.pins[id].status, target) then
        f.(pins := f.pins[id := f.pins[id].(status := target)])
      else f
    case PublishFile(name, digest, stage) =>
      f.(dirs := WithStored(root, f.dirs, name, Some(digest), stage))
  }

  function Run(root: Path, f: Flow, steps: seq<Step>): Flow
    decreases |steps|
  {
    if steps == [] then f else Next(root, Run(root, f, steps[..|steps| - 1]), steps[|steps| - 1])
  }

  const NEW_FLOW := Flow(map[], map[], None)

  /** A run is what its steps make of each state in turn. */
  lemma {:induction false} RunOf(root: Path, f: Flow, steps: seq<Step>, states: seq<Flow>)
    requires |states| == |steps| + 1 && states[0] == f
    requires forall i | 0 <= i < |steps| :: states[i + 1] == Next(root, states[i], steps[i])
    ensures Run(root, f, steps) == states[|steps|]
    decreases |steps|
  {
    hide Next;
    if steps != [] {
      RunOf(root, f, steps[..|steps| - 1], states[..|states| - 1]);
    }
  }

  lemma {:induction false} RunConcat(root: Path, f: Flow, a: seq<Step>, b: seq<Step>)
    ensures Run(root, f, a + b) == Run(root, Run(root, f, a), b)
    decreases |b|
  {
    hide Next;
    if b == [] {
      assert a + b == a;
    } else {
      RunConcat(root, f, a, b[..|b| - 1]);
      assert (a + b)[..|a + b| - 1] == a + b[..|b| - 1];
    }
  }

  // ---------------------------------------------------------------- pinning

  /** The version of a session can be loaded and has the digest that the session recorded. */
  predicate Pinned(root: Path, f: Flow, p: Pin) {
    Held(f.dirs, Place(root, p.version)) == Version(true, Some(p.digest), true)
  }

  predicate AllPinned(root: Path, f: Flow) {
    forall id | id in f.pins && Live(f.pins[id]) :: Pinned(root, f, f.pins[id])
  }

  /** The names in use: those under which versions are saved and started, and those given to deletions. */
  datatype Names = Names(saved: set<string>, deleted: set<string>)

  /** No saved name shares its place with another, and no deletion reaches a saved name other than its own. */
  predicate Unaliased(root: Path, names: Names) {
    && (forall s, t | s in names.saved && t in names.saved && s != t :: Place(root, s) != Place(root, t))
    && (forall d, s | d in names.deleted && s in names.saved && d != s :: !(Place(root, d) <= Place(root, s)))
  }

  /** What the holder of the lock has established stays true while sessions move on. */
  predicate HolderOk(root: Path, names: Names, f: Flow) {
    match f.holder
    case None => true
    case Some(t) =>
      && (t.Starting? ==> t.version in names.saved && (t.found.Some? ==> Loaded(root, f.dirs, t.version) == t.found))
      && (t.Saving? ==> t.version in names.saved)
      && (t.Deleting? ==> t.version in names.deleted)
      && forall id | id in Checked(t) && id in f.pins :: !Conflict(t, f.pins[id])
  }

  predicate Invariant(root: Path, names: Names, f: Flow) {
    && AllPinned(root, f)
    && (forall id | id in f.pins :: f.pins[id].version in names.saved)
    && HolderOk(root, names, f)
  }

  /** A step of a locked operation that uses the given names, as the operations compare them. */
  predicate Over(names: Names, step: Step) {
    match step
    case Save(name, _) => Trim(name) != "" ==> Trim(name) in names.saved
    case Delete(name) => name in names.deleted
    case Start(name) => Trim(name) in names.saved
    case PublishFile(_, _, _) => false
    case _ => true
  }

  /** A session that has ended stays ended, so what was checked stays checked. */
  lemma {:induction false} MoveKeeps(root: Path, names: Names, f: Flow, step: Step)
    requires Invariant(root, names, f) && step.Move?
    ensures Invariant(root, names, Next(root, f, step))
  {
    hide Place, Trim;
    var f' := Next(root, f, step);
    assert forall id | id in f'.pins ::
        && id in f.pins && f'.pins[id].version == f.pins[id].version && f'.pins[id].digest == f.pins[id].digest
        && (Live(f'.pins[id]) ==> Live(f.pins[id]));
    forall id | id in f'.pins && Live(f'.pins[id]) ensures Pinned(root, f', f'.pins[id]) {
      assert Pinned(root, f, f.pins[id]);
    }
  }

  lemma {:induction false} WriteKeeps(root: Path, names: Names, f: Flow)
    requires Unaliased(root, names) && Invariant(root, names, f)
    ensures Invariant(root, names, Next(root, f, WriteFile))
  {
    hide Place, Trim;
    var f' := Next(root, f, WriteFile);
    if f' != f {
      var t := f.holder.value;
      forall id | id in f'.pins && Live(f'.pins[id]) ensures Pinned(root, f', f'.pins[id]) {
        assert Pinned(root, f, f.pins[id]);
        assert !Conflict(t, f.pins[id]);
      }
    }
  }

  lemma {:induction false} EraseKeeps(root: Path, names: Names, f: Flow, p: Path)
    requires Unaliased(root, names) && Invariant(root, names, f)
    ensures Invariant(root, names, Next(root, f, Erase(p)))
  {
    hide Place, Trim;
    var f' := Next(root, f, Erase(p));
    if f' != f {
      var t := f.holder.value;
      forall id | id in f'.pins && Live(f'.pins[id]) ensures Pinned(root, f', f'.pins[id]) {
        assert Pinned(root, f, f.pins[id]);
        assert !Conflict(t, f.pins[id]);
      }
    }
  }

  /** Every step of a locked operation keeps the invariant, whatever else goes on. */
  lemma {:induction false} StepKeeps(root: Path, names: Names, f: Flow, step: Step)
    requires Unaliased(root, names) && Invariant(root, names, f) && Over(names, step)
    ensures Invariant(root, names, Next(root, f, step))
  {
    hide Place, Trim, Unaliased;
    if step.Move? {
      MoveKeeps(root, names, f, step);
    } else if step.WriteFile? {
      WriteKeeps(root, names, f);
    } else if step.Erase? {
      EraseKeeps(root, names, f, step.path);
    } else {
      var f' := Next(root, f, step);
      forall id | id in f'.pins && Live(f'.pins[id]) ensures Pinned(root, f', f'.pins[id]) {
        assert id in f.pins ==> f'.pins[id] == f.pins[id] && Pinned(root, f, f.pins[id]);
      }
    }
  }

  // ---------------------------------------------------------------- publishing

  /** The holder of the lock is about to open a session on what it loaded from the place of `name`. */
  predicate StartsAt(root: Path, f: Flow, name: string) {
    && f.holder.Some? && f.holder.value.Starting? && f.holder.value.found.Some?
    && Place(root, f.holder.value.version) == Place(root, name)
  }

  /**
   Writing one file of a published version disturbs nobody: it is not the compiled form, or the
   sessions pinned there, and the one about to start there, have the digest that is written.
   */
  predicate Undisturbed(root: Path, f: Flow, name: string, digest: string, stage: nat) {
    stage == 1 ==>
      && (forall id | id in f.pins && Live(f.pins[id]) && Place(root, f.pins[id].version) == Place(root, name) ::
            f.pins[id].digest == digest)
      && (StartsAt(root, f, name) ==> f.holder.value.found == Some(digest))
  }

  /** A file of a published version, written at any moment, keeps the invariant exactly when it disturbs nobody. */
  lemma {:induction false} PublishKeepsIff(root: Path, names: Names, f: Flow, name: string, digest: string, stage: nat)
    requires Invariant(root, names, f)
    ensures Invariant(root, names, Next(root, f, PublishFile(name, digest, stage))) <==>
            Undisturbed(root, f, name, digest, stage)
  {
    hide Place, Trim;
    var f' := Next(root, f, PublishFile(name, digest, stage));
    forall id | id in f.pins && Live(f.pins[id])
      ensures Pinned(root, f', f.pins[id]) <==>
              (stage == 1 && Place(root, f.pins[id].version) == Place(root, name) ==> f.pins[id].digest == digest)
    {
      assert Pinned(root, f, f.pins[id]);
    }
  }

  /** A step of a locked operation over the names, or a file of a published version that disturbs nobody. */
  predicate Admitted(root: Path, names: Names, f: Flow, step: Step) {
    Over(names, step) || (step.PublishFile? && Undisturbed(root, f, step.name, step.loaded, step.stage))
  }

  // ---------------------------------------------------------------- every run

  /**
   In every run over names without aliases, the version of every session that has not ended exists
   with the digest it was pinned at; files of published versions may be written in between.
   */
  lemma {:induction false} PinningHolds(root: Path, names: Names, steps: seq<Step>)
    requires Unaliased(root, names)
    requires forall k | 0 <= k < |steps| :: Admitted(root, names, Run(root, NEW_FLOW, steps[..k]), steps[k])
    ensures Invariant(root, names, Run(root, NEW_FLOW, steps))
    decreases |steps|
  {
    hide Next, Invariant, Over, Undisturbed, Unaliased;
    if steps == [] {
      StartsPinned(root, names);
    } else {
      var before := steps[..|steps| - 1];
      forall k | 0 <= k < |before| ensures Admitted(root, names, Run(root, NEW_FLOW, before[..k]), before[k]) {
        assert before[..k] == steps[..k];
      }
      PinningHolds(root, names, before);
      var f := Run(root, NEW_FLOW, before);
      var step := steps[|steps| - 1];
      if Over(names, step) {
        StepKeeps(root, names, f, step);
      } else {
        PublishKeepsIff(root, names, f, step.name, step.loaded, step.stage);
      }
    }
  }

  lemma StartsPinned(root: Path, names: Names)
    ensures Invariant(root, names, NEW_FLOW)
  {
  }

  predicate AllOver(names: Names, steps: seq<Step>) {
    forall s | s in steps :: Over(names, s)
  }

  /** Every run of locked operations over the names keeps every session pinned. */
  ghost predicate AlwaysPinned(root: Path, names: Names) {
    forall steps: seq<Step> | AllOver(names, steps) :: AllPinned(root, Run(root, NEW_FLOW, steps))
  }

  /** Names are saved in their trimmed, non-empty form. */
  predicate SavedForm(names: Names) {
    forall s | s in names.saved :: s != "" && Trim(s) == s
  }

  /**
   The guards of the locked operations protect every session, in every interleaving, if and only if
   the names they are given are free of aliases.
   */
  lemma {:induction false} PinningHoldsIffUnaliased(root: Path, names: Names)
    requires SavedForm(names)
    ensures AlwaysPinned(root, names) <==> Unaliased(root, names)
  {
    hide Place, Trim, Run, AllPinned;
    if Unaliased(root, names) {
      forall steps: seq<Step> | AllOver(names, steps) ensures AllPinned(root, Run(root, NEW_FLOW, steps)) {
        OverRunsArePinned(root, names, steps);
      }
    } else if s, t :| s in names.saved && t in names.saved && s != t && Place(root, s) == Place(root, t) {
      SharedPlaceBreaks(root, names, s, t);
    } else {
      var d, s :| d in names.deleted && s in names.saved && d != s && Place(root, d) <= Place(root, s);
      ReachingDeleteBreaks(root, names, d, s);
    }
  }

  lemma {:induction false} OverRunsArePinned(root: Path, names: Names, steps: seq<Step>)
    requires Unaliased(root, names) && AllOver(names, steps)
    ensures AllPinned(root, Run(root, NEW_FLOW, steps))
  {
    hide Place, Run, Over, AllPinned, Unaliased;
    PinningHolds(root, names, steps);
  }

  /** Plain names have no aliases. */
  lemma {:induction false} PlainIsUnaliased(root: Path, names: Names)
    requires (forall s | s in names.saved :: Plain(s)) && forall d | d in names.deleted :: Plain(d)
    ensures Unaliased(root, names)
  {
    hide Place, Plain;
    forall s, t | s in names.saved && t in names.saved && s != t ensures Place(root, s) != Place(root, t) {
      PlainApart(root, s, t);
    }
    forall d, s | d in names.deleted && s in names.saved && d != s ensures !(Place(root, d) <= Place(root, s)) {
      PlainApart(root, d, s);
    }
  }

  // ---------------------------------------------------------------- whole operations

  /** The directory of a version after all three files are saved. */
  function Saved(v: Version, digest: Option<string>): Version {
    Version(true, if digest.Some? then digest else v.compiled, true)
  }

  function WithSaved(root: Path, f: Flow, name: string, digest: Option<string>): Flow {
    f.(dirs := f.dirs[Place(root, name) := Saved(Held(f.dirs, Place(root, name)), digest)])
  }

  const WRITES: seq<Step> := [WriteFile, WriteFile, WriteFile, Release]

  lemma {:induction false} TrimmedPlace(root: Path, name: string)
    ensures Place(root, Trim(name)) == Place(root, name)
  {
    TrimTwice(name);
  }

  /** The writes of a save, one after the other, store the version. */
  lemma {:induction false} SaveEnds(root: Path, f: Flow, steps: seq<Step>, name: string, digest: Option<string>)
    requires f.holder.None? && Run(root, f, steps) == f.(holder := Some(Saving(Trim(name), digest, f.pins.Keys, 0)))
    ensures Run(root, f, steps + WRITES) == WithSaved(root, f, name, digest)
  {
    hide Run, Trim, Place;
    TrimmedPlace(root, name);
    var f0 := Run(root, f, steps);
    var p := Place(root, name);
    var v := Held(f.dirs, p);
    var f1 := f0.(dirs := f.dirs[p := Stored(v, digest, 0)], holder := Some(f0.holder.value.(stage := 1)));
    var f2 := f0.(dirs := f.dirs[p := Stored(Stored(v, digest, 0), digest, 1)],
                  holder := Some(f0.holder.value.(stage := 2)));
    var f4 := WithSaved(root, f, name, digest);
    var f3 := f4.(holder := Some(f0.holder.value.(stage := 3)));
    FileWritten(root, f0, f1);
    FileWritten(root, f1, f2);
    FileWritten(root, f2, f3);
    RunConcat(root, f, steps, WRITES);
    RunOf(root, f0, WRITES, [f0, f1, f2, f3, f4]);
  }

  lemma {:induction false} FileWritten(root: Path, f: Flow, f': Flow)
    requires AllChecked(f) && f.holder.value.Saving? && f.holder.value.stage < 3
    requires f'.pins == f.pins && f'.holder == Some(f.holder.value.(stage := f.holder.value.stage + 1))
    requires f'.dirs == WithStored(root, f.dirs, f.holder.value.version, f.holder.value.digest, f.holder.value.stage)
    ensures f' == Next(root, f, WriteFile)
  {
    hide Place, WithStored;
  }

  /** A start, from taking the lock to releasing it, opens a session on what is loaded. */
  lemma {:induction false} StartRuns(root: Path, f: Flow, name: string, id: string)
    requires f.holder.None? && Loaded(root, f.dirs, name).Some? && id !in f.pins
    ensures Run(root, f, [Start(name), Load, Open(id), Release])
            == f.(pins := f.pins[id := Pin(Trim(name), Loaded(root, f.dirs, name).value, Active)])
    ensures Loaded(root, f.dirs, Trim(name)) == Loaded(root, f.dirs, name)
  {
    hide Run, Trim, Place;
    TrimmedPlace(root, name);
    var f1 := Next(root, f, Start(name));
    var f2 := Next(root, f1, Load);
    var f3 := Next(root, f2, Open(id));
    var f4 := Next(root, f3, Release);
    RunOf(root, f, [Start(name), Load, Open(id), Release], [f, f1, f2, f3, f4]);
  }

  /** A save while there are no sessions. */
  lemma {:induction false} SaveRuns(root: Path, f: Flow, name: string, digest: Option<string>)
    requires f.holder.None? && f.pins == map[] && Trim(name) != ""
    ensures Run(root, f, [Save(name, digest)] + WRITES) == WithSaved(root, f, name, digest)
  {
    hide Trim, Place, Run;
    var f1 := f.(holder := Some(Saving(Trim(name), digest, {}, 0)));
    assert f.pins.Keys == {};
    RunOf(root, f, [Save(name, digest)], [f, f1]);
    SaveEnds(root, f, [Save(name, digest)], name, digest);
  }

  /** Saves a version and opens a session on it. */
  function Opening(name: string, digest: string): seq<Step> {
    [Save(name, Some(digest))] + WRITES + [Start(name), Load, Open("s"), Release]
  }

  /** A Flow with one version and one session on it. */
  function Opened(root: Path, name: string, digest: string): Flow {
    Flow(map[Place(root, name) := Version(true, Some(digest), true)], map["s" := Pin(name, digest, Active)], None)
  }

  lemma {:induction false} OpeningRuns(root: Path, name: string, digest: string)
    requires name != "" && Trim(name) == name
    ensures Run(root, NEW_FLOW, Opening(name, digest)) == Opened(root, name, digest)
  {
    hide Trim, Place, Run;
    SaveRuns(root, NEW_FLOW, name, Some(digest));
    var f := WithSaved(root, NEW_FLOW, name, Some(digest));
    assert f.dirs == map[Place(root, name) := Version(true, Some(digest), true)];
    StartRuns(root, f, name, "s");
    RunConcat(root, NEW_FLOW, [Save(name, Some(digest))] + WRITES, [Start(name), Load, Open("s"), Release]);
  }

  // ---------------------------------------------------------------- where pinning fails

  /** Two saved names with one place: saving under the other name passes the guard and replaces the pinned form. */
  lemma {:induction false} SharedPlaceBreaks(root: Path, names: Names, s: string, t: string)
    requires SavedForm(names) && s in names.saved && t in names.saved && s != t && Place(root, s) == Place(root, t)
    ensures !AlwaysPinned(root, names)
  {
    hide Place, Trim, Run, SavedForm, Opening;
    assert s != "" && Trim(s) == s && t != "" && Trim(t) == t by { FormOf(names, s); FormOf(names, t); }
    var f0 := Opened(root, s, "1");
    OpeningRuns(root, s, "1");
    var replace := [Save(t, Some("2")), Check("s")];
    var f1 := f0.(holder := Some(Saving(t, Some("2"), {}, 0)));
    var f2 := f0.(holder := Some(Saving(t, Some("2"), {"s"}, 0)));
    assert f1 == Next(root, f0, Save(t, Some("2")));
    assert {} + {"s"} == {"s"} && !Conflict(f1.holder.value, f1.pins["s"]);
    assert f2 == Next(root, f1, Check("s"));
    RunOf(root, f0, replace, [f0, f1, f2]);
    assert f0.pins.Keys == {"s"};
    SaveEnds(root, f0, replace, t, Some("2"));
    var f := WithSaved(root, f0, t, Some("2"));
    assert Live(f.pins["s"]) && "1"[0] != "2"[0] && !Pinned(root, f, f.pins["s"]);
    RunConcat(root, NEW_FLOW, Opening(s, "1"), replace + WRITES);
    OpeningIsOver(names, s);
    assert AllOver(names, Opening(s, "1") + (replace + WRITES));
  }

  lemma {:induction false} FormOf(names: Names, s: string)
    requires SavedForm(names) && s in names.saved
    ensures s != "" && Trim(s) == s
  {
    hide Trim;
  }

  lemma {:induction false} OpeningIsOver(names: Names, s: string)
    requires s in names.saved && Trim(s) == s
    ensures AllOver(names, Opening(s, "1"))
  {
    hide Trim;
  }

  /** A deletion whose place contains that of a saved name passes the guard and removes the pinned version. */
  lemma {:induction false} ReachingDeleteBreaks(root: Path, names: Names, d: string, s: string)
    requires SavedForm(names) && d in names.deleted && s in names.saved && d != s && Place(root, d) <= Place(root, s)
    ensures !AlwaysPinned(root, names)
  {
    hide Place, Trim, Run, SavedForm, Opening;
    FormOf(names, s);
    var f0 := Opened(root, s, "1");
    OpeningRuns(root, s, "1");
    DeletionBreaks(root, d, s);
    var remove := [Delete(d), Check("s"), Erase(Place(root, s))];
    RunConcat(root, NEW_FLOW, Opening(s, "1"), remove);
    OpeningIsOver(names, s);
    assert AllOver(names, Opening(s, "1") + remove);
  }

  /** The guard compares names, the deletion removes places. */
  lemma {:induction false} DeletionBreaks(root: Path, d: string, s: string)
    requires d != s && Place(root, d) <= Place(root, s)
    ensures AllPinned(root, Opened(root, s, "1"))
    ensures !AllPinned(root, Run(root, Opened(root, s, "1"), [Delete(d), Check("s"), Erase(Place(root, s))]))
  {
    hide Place, Trim, Run;
    var f0 := Opened(root, s, "1");
    var f1 := f0.(holder := Some(Deleting(d, {})));
    var f2 := f0.(holder := Some(Deleting(d, {"s"})));
    var f3 := f2.(dirs := map[]);
    assert f1 == Next(root, f0, Delete(d));
    assert {} + {"s"} == {"s"} && !Conflict(f1.holder.value, f1.pins["s"]);
    assert f2 == Next(root, f1, Check("s"));
    assert f0.pins.Keys == {"s"};
    assert f0.dirs - {Place(root, s)} == map[];
    assert f3 == Next(root, f2, Erase(Place(root, s)));
    RunOf(root, f0, [Delete(d), Check("s"), Erase(Place(root, s))], [f0, f1, f2, f3]);
    assert Live(f3.pins["s"]) && !Pinned(root, f3, f3.pins["s"]);
  }

  /** The store once everything below the place of a name is gone. */
  function Without(root: Path, f: Flow, name: string): Flow {
    f.(dirs := map p | p in f.dirs && !(Place(root, name) <= p) :: f.dirs[p])
  }

  /**
   Deleting a version compares names as they are given but removes the place that the
   trimmed name stands for. It keeps the pinning exactly when the version of no session
   that has not ended lies in that place.
   */
  lemma {:induction false} DeleteKeepsPinningIff(root: Path, f: Flow, name: string)
    requires AllPinned(root, f)
    ensures AllPinned(root, Without(root, f, name)) <==>
            forall id | id in f.pins && Live(f.pins[id]) :: !(Place(root, name) <= Place(root, f.pins[id].version))
  {
    hide Place;
    var f' := Without(root, f, name);
    forall id | id in f.pins && Live(f.pins[id])
      ensures Pinned(root, f', f.pins[id]) <==> !(Place(root, name) <= Place(root, f.pins[id].version))
    {
      assert Pinned(root, f, f.pins[id]);
    }
  }

  /** The empty name stands for the directory of all versions. */
  lemma {:induction false} EmptyNamePlace(root: Path)
    ensures Place(root, "") == root
  {
    assert Segments("") == [""] && Walk(root, []) == root;
    assert [""][1..] == [];
  }

  /** Deleting the empty name removes every version with a plain name. */
  lemma {:induction false} EmptyNameRemovesAll(root: Path, f: Flow, name: string)
    requires Plain(name)
    ensures Place(root, name) !in Without(root, f, "").dirs
  {
    hide Place, Plain;
    EmptyNamePlace(root);
    PlainPlace(root, name);
    assert root <= root + [name];
  }

  lemma {:induction false} V1()
    ensures Trim("v1") == "v1" && Plain("v1") && Trim(" v1") == "v1" && " v1" != "v1"
  {
    TrimmedEnds("v1");
    assert " v1"[1..] == "v1";
  }

  /** A name with a space before it passes the guard and takes the pinned version away. */
  lemma {:induction false} DeleteAliasBreaksPinning(root: Path)
    ensures AllPinned(root, Opened(root, "v1", "1"))
    ensures !AllPinned(root, Run(root, Opened(root, "v1", "1"), [Delete(" v1"), Check("s"), Erase(Place(root, "v1"))]))
  {
    hide Place, Trim, Run, Plain, AllPinned;
    V1();
    TrimmedPlace(root, " v1");
    DeletionBreaks(root, " v1", "v1");
  }

  /**
   Saving a version keeps the pinning exactly when every session that has not ended and whose
   version lies in the same place is pinned at the saved digest, or no compiled form is saved.
   */
  lemma {:induction false} SaveKeepsPinningIff(root: Path, f: Flow, name: string, digest: Option<string>)
    requires AllPinned(root, f)
    ensures AllPinned(root, WithSaved(root, f, name, digest)) <==>
            (digest.None? ||
             forall id | id in f.pins && Live(f.pins[id]) && Place(root, f.pins[id].version) == Place(root, name) ::
               digest == Some(f.pins[id].digest))
  {
    hide Place;
    var f' := WithSaved(root, f, name, digest);
    forall id | id in f.pins && Live(f.pins[id])
      ensures Pinned(root, f', f.pins[id]) <==>
              (Place(root, f.pins[id].version) == Place(root, name) && digest.Some? ==>
                 digest == Some(f.pins[id].digest))
    {
      assert Pinned(root, f, f.pins[id]);
    }
  }

  /** The three files of a published version. */
  function Publishing(name: string, digest: string): seq<Step> {
    [PublishFile(name, digest, 0), PublishFile(name, digest, 1), PublishFile(name, digest, 2)]
  }

  lemma {:induction false} PublishRun(root: Path, f: Flow, name: string, digest: string)
    ensures Run(root, f, Publishing(name, digest)) == WithSaved(root, f, name, Some(digest))
  {
    hide Place, Run;
    var f1 := Next(root, f, PublishFile(name, digest, 0));
    var f2 := Next(root, f1, PublishFile(name, digest, 1));
    var f3 := Next(root, f2, PublishFile(name, digest, 2));
    assert f3 == WithSaved(root, f, name, Some(digest));
    RunOf(root, f, Publishing(name, digest), [f, f1, f2, f3]);
  }

  /** A Flow with one version and no session yet. */
  function Drafted(root: Path): Flow {
    WithSaved(root, NEW_FLOW, "v1", Some("1"))
  }

  /**
   Publishing saves, without the Flow lock, the version that it loaded earlier. If that version is
   replaced in between and a session starts on it, the session loses its version.
   */
  lemma {:induction false} PublishBreaksPinning(root: Path)
    ensures Loaded(root, Drafted(root).dirs, "v1") == Some("1")
    ensures AllOver(Names({"v1"}, {}), Opening("v1", "2"))
    ensures AllPinned(root, Run(root, Drafted(root), Opening("v1", "2")))
    ensures !AllPinned(root, Run(root, Drafted(root), Opening("v1", "2") + Publishing("v1", "1")))
  {
    hide Place, Trim, Run, Plain;
    V1();
    var f := Opened(root, "v1", "2");
    SaveRuns(root, Drafted(root), "v1", Some("2"));
    var saved := WithSaved(root, Drafted(root), "v1", Some("2"));
    assert saved == f.(pins := map[]);
    StartRuns(root, saved, "v1", "s");
    RunConcat(root, Drafted(root), [Save("v1", Some("2"))] + WRITES, [Start("v1"), Load, Open("s"), Release]);
    assert Run(root, Drafted(root), Opening("v1", "2")) == f;
    RunConcat(root, Drafted(root), Opening("v1", "2"), Publishing("v1", "1"));
    PublishRun(root, f, "v1", "1");
    SaveKeepsPinningIff(root, f, "v1", Some("1"));
    assert Live(f.pins["s"]) && "1"[0] != "2"[0];
  }

  // ---------------------------------------------------------------- loading what was saved

  /**
   What a load returns after a save is what was saved, exactly when a compiled form was saved or the
   directory held none before: saving a draft without nodes leaves an older compiled form in place.
   */
  lemma {:induction false} LoadedIsSavedIff(root: Path, f: Flow, name: string, digest: Option<string>)
    ensures Loaded(root, WithSaved(root, f, name, digest).dirs, name) == digest <==>
            digest.Some? || Held(f.dirs, Place(root, name)).compiled.None?
  {
    hide Place;
  }

  /** A version is emptied, and a session opens on the compiled form that it had before. */
  lemma {:induction false} SessionOpensOnStaleForm(root: Path, name: string, digest: string)
    requires name != "" && Trim(name) == name
    ensures var emptied := [Save(name, Some(digest))] + WRITES + ([Save(name, None)] + WRITES);
            && AllOver(Names({name}, {}), emptied)
            && Run(root, NEW_FLOW, emptied + [Start(name), Load, Open("s"), Release]) == Opened(root, name, digest)
  {
    hide Place, Trim, Run;
    var f := WithSaved(root, NEW_FLOW, name, Some(digest));
    SaveRuns(root, NEW_FLOW, name, Some(digest));
    SaveRuns(root, f, name, None);
    var full, empty := [Save(name, Some(digest))] + WRITES, [Save(name, None)] + WRITES;
    RunConcat(root, NEW_FLOW, full, empty);
    assert WithSaved(root, f, name, None) == f;
    StartRuns(root, f, name, "s");
    RunConcat(root, NEW_FLOW, full + empty, [Start(name), Load, Open("s"), Release]);
  }
}
