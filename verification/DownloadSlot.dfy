/**
 The download slot over every interleaving of starts and jobs.

 A start checks that its file is absent before it takes the manager's lock, and claims the
 slot under it; the two are separate steps. A job may write and remove its temp file any
 number of times before it renames it or gives up, and then releases the slot.
 */
module DownloadSlots {
  import opened Wrappers
  import opened Downloads

  datatype Pc = Refused | Checked | Running | Ending(completed: bool) | Done

  /** `checkedAt` and `claimedAt` count the downloads completed when the start did that; `found` is
      its file as it was at the claim. */
  datatype Call = Call(dest: string, pc: Pc, checkedAt: nat, claimedAt: nat, found: Option<Content>)

  /** `completed` lists the destinations of the renames, in order. */
  datatype World = World(files: Files, active: Option<nat>, calls: seq<Call>, completed: seq<string>)

  datatype Step =
    | Check(dest: string)
    | Claim(k: nat)
    | Write(k: nat, content: Content)
    | Discard(k: nat)
    | Rename(k: nat)
    | GiveUp(k: nat)
    | Finish(k: nat)

  predicate At(w: World, k: nat, pc: Pc) {
    k < |w.calls| && w.calls[k].pc == pc
  }

  predicate Enabled(w: World, step: Step) {
    match step
    case Check(_) => true
    case Claim(k) => At(w, k, Checked)
    case Write(k, _) => At(w, k, Running)
    case Discard(k) => At(w, k, Running)
    case Rename(k) => At(w, k, Running) && TempFor(w.calls[k].dest) in w.files
    case GiveUp(k) => At(w, k, Running)
    case Finish(k) => k < |w.calls| && w.calls[k].pc.Ending?
  }

  function FileAt(files: Files, path: string): Option<Content> {
    if path in files then Some(files[path]) else None
  }

  function Goto(w: World, k: nat, pc: Pc): World
    requires k < |w.calls|
  {
    w.(calls := w.calls[k := w.calls[k].(pc := pc)])
  }

  function Next(w: World, step: Step): World {
    if !Enabled(w, step) then w else
    match step
    case Check(dest) =>
      w.(calls := w.calls + [Call(dest, if dest in w.files then Refused else Checked, |w.completed|, 0, None)])
    case Claim(k) =>
      if w.active.Some? then Goto(w, k, Refused)
      else
        var found := FileAt(w.files, w.calls[k].dest);
        var claimed := w.calls[k].(pc := Running, claimedAt := |w.completed|, found := found);
        w.(active := Some(k), calls := w.calls[k := claimed])
    case Write(k, content) => w.(files := w.files[TempFor(w.calls[k].dest) := content])
    case Discard(k) => w.(files := w.files - {TempFor(w.calls[k].dest)})
    case Rename(k) =>
      var dest := w.calls[k].dest;
      var content := w.files[TempFor(dest)];
      var files := (w.files - {TempFor(dest)})[dest := content];
      Goto(w.(files := files, completed := w.completed + [dest]), k, Ending(true))
    case GiveUp(k) => Goto(w, k, Ending(false))
    case Finish(k) => Goto(w.(active := None), k, Done)
  }

  function Run(w: World, steps: seq<Step>): World
    decreases |steps|
  {
    if steps == [] then w else Run(Next(w, steps[0]), steps[1..])
  }

  /** A store with files that the downloader did not put there. */
  function Initial(files: Files): World {
    World(files, None, [], [])
  }

  // ---- The slot ----

  predicate Live(c: Call) {
    c.pc == Running || c.pc.Ending?
  }

  ghost predicate SlotInv(w: World) {
    forall k :: 0 <= k < |w.calls| ==> (Live(w.calls[k]) <==> w.active == Some(k))
  }

  ghost predicate CountsInv(w: World) {
    && (w.active.Some? ==> w.active.value < |w.calls|)
    && forall k :: 0 <= k < |w.calls| ==>
      var c := w.calls[k];
      && c.checkedAt <= |w.completed| && c.claimedAt <= |w.completed|
      && (c.pc == Running ==> c.checkedAt <= c.claimedAt == |w.completed|)
  }

  lemma StepKeepsSlot(w: World, step: Step)
    requires SlotInv(w) && CountsInv(w)
    ensures SlotInv(Next(w, step)) && CountsInv(Next(w, step))
  {
  }

  lemma {:induction false} RunKeepsSlot(w: World, steps: seq<Step>)
    requires SlotInv(w) && CountsInv(w)
    ensures SlotInv(Run(w, steps)) && CountsInv(Run(w, steps))
    decreases |steps|
  {
    if steps != [] {
      StepKeepsSlot(w, steps[0]);
      RunKeepsSlot(Next(w, steps[0]), steps[1..]);
    }
  }

  /** At most one job is live, and the slot holds exactly that one from its claim until it finishes. */
  lemma SingleSlot(files: Files, steps: seq<Step>)
    ensures var w := Run(Initial(files), steps);
      && (forall j, k :: 0 <= j < |w.calls| && 0 <= k < |w.calls| && Live(w.calls[j]) && Live(w.calls[k]) ==> j == k)
      && (w.active.Some? ==> w.active.value < |w.calls| && Live(w.calls[w.active.value]))
      && (w.active.None? ==> forall k :: 0 <= k < |w.calls| ==> !Live(w.calls[k]))
  {
    RunKeepsSlot(Initial(files), steps);
  }

  // ---- Append-only ----

  /** No file is the temp file of another. */
  ghost predicate NoClash(names: set<string>) {
    forall x, y :: x in names && y in names ==> x != TempFor(y)
  }

  ghost predicate Names(w: World, names: set<string>) {
    forall k :: 0 <= k < |w.calls| ==> w.calls[k].dest in names
  }

  predicate StepNames(step: Step, names: set<string>) {
    step.Check? ==> step.dest in names
  }

  ghost predicate AllNames(steps: seq<Step>, names: set<string>) {
    forall i :: 0 <= i < |steps| ==> StepNames(steps[i], names)
  }

  /** A start that has not completed finds its file present exactly if a download of the same file
      completed since its check. */
  ghost predicate PresentInv(w: World) {
    forall k :: 0 <= k < |w.calls| && w.calls[k].pc in {Checked, Running} && w.calls[k].checkedAt <= |w.completed| ==>
      (w.calls[k].dest in w.files <==> w.calls[k].dest in w.completed[w.calls[k].checkedAt..])
  }

  lemma StepKeepsPresent(w: World, step: Step, names: set<string>)
    requires SlotInv(w) && CountsInv(w) && PresentInv(w)
    requires NoClash(names) && Names(w, names) && StepNames(step, names)
    ensures PresentInv(Next(w, step)) && Names(Next(w, step), names)
  {
    var w' := Next(w, step);
    forall k | 0 <= k < |w'.calls| && w'.calls[k].pc in {Checked, Running}
      ensures w'.calls[k].dest in w'.files <==> w'.calls[k].dest in w'.completed[w'.calls[k].checkedAt..]
    {
      var c := w'.calls[k];
      if k < |w.calls| {
        assert w'.completed == w.completed + w'.completed[|w.completed|..];
        assert w'.completed[c.checkedAt..] == w.completed[c.checkedAt..] + w'.completed[|w.completed|..];
        assert c.dest == w.calls[k].dest && w.calls[k].dest in names;
      }
    }
  }

  lemma {:induction false} RunKeepsPresent(w: World, steps: seq<Step>, names: set<string>)
    requires SlotInv(w) && CountsInv(w) && PresentInv(w)
    requires NoClash(names) && Names(w, names) && AllNames(steps, names)
    ensures PresentInv(Run(w, steps))
    decreases |steps|
  {
    if steps != [] {
      StepKeepsSlot(w, steps[0]);
      StepKeepsPresent(w, steps[0], names);
      RunKeepsPresent(Next(w, steps[0]), steps[1..], names);
    }
  }

  lemma CompletedSinceCheck(files: Files, steps: seq<Step>, names: set<string>, k: nat)
    requires NoClash(names) && AllNames(steps, names)
    requires At(Run(Initial(files), steps), k, Running)
    ensures var w := Run(Initial(files), steps);
      var c := w.calls[k];
      && c.checkedAt <= c.claimedAt <= |w.completed|
      && (c.dest in w.files <==> c.dest in w.completed[c.checkedAt..c.claimedAt])
  {
    RunKeepsSlot(Initial(files), steps);
    RunKeepsPresent(Initial(files), steps, names);
    var w := Run(Initial(files), steps);
    var c := w.calls[k];
    assert w.completed[c.checkedAt..] == w.completed[c.checkedAt..c.claimedAt];
  }

  /** While a download runs, its file is as it found it: nobody else changes the store, and its own
      temp file is another one. */
  ghost predicate FoundInv(w: World) {
    forall k :: 0 <= k < |w.calls| && w.calls[k].pc == Running ==>
      FileAt(w.files, w.calls[k].dest) == w.calls[k].found
  }

  lemma StepKeepsFound(w: World, step: Step)
    requires SlotInv(w) && FoundInv(w)
    ensures FoundInv(Next(w, step))
  {
    var w' := Next(w, step);
    forall k | 0 <= k < |w'.calls| && w'.calls[k].pc == Running
      ensures FileAt(w'.files, w'.calls[k].dest) == w'.calls[k].found
    {
      TempIsNot(w'.calls[k].dest);
    }
  }

  lemma {:induction false} RunKeepsFound(w: World, steps: seq<Step>)
    requires SlotInv(w) && CountsInv(w) && FoundInv(w)
    ensures FoundInv(Run(w, steps))
    decreases |steps|
  {
    if steps != [] {
      StepKeepsSlot(w, steps[0]);
      StepKeepsFound(w, steps[0]);
      RunKeepsFound(Next(w, steps[0]), steps[1..]);
    }
  }

  /** Append-only, exactly: the rename of a running download overwrites a file if and only if its file
      was present when it claimed the slot, and what it overwrites is that very file. With names none
      of which is another's temp file, that is if and only if a download of the same file completed
      between this start's check and its claim. */
  lemma OverwritesIff(files: Files, steps: seq<Step>, names: set<string>, k: nat)
    requires At(Run(Initial(files), steps), k, Running)
    ensures var w := Run(Initial(files), steps);
      var c := w.calls[k];
      && FileAt(w.files, c.dest) == c.found
      && (Enabled(w, Rename(k)) ==> FileAt(Next(w, Rename(k)).files, c.dest) == FileAt(w.files, TempFor(c.dest)))
      && (NoClash(names) && AllNames(steps, names) ==>
            && c.checkedAt <= c.claimedAt <= |w.completed|
            && (c.found.Some? <==> c.dest in w.completed[c.checkedAt..c.claimedAt]))
  {
    RunKeepsSlot(Initial(files), steps);
    RunKeepsFound(Initial(files), steps);
    if NoClash(names) && AllNames(steps, names) {
      CompletedSinceCheck(files, steps, names, k);
    }
  }

  /** Nothing but a rename onto it changes a file that is no download's temp file. */
  lemma OnlyRenamesChange(w: World, step: Step, path: string)
    requires forall k :: 0 <= k < |w.calls| ==> path != TempFor(w.calls[k].dest)
    ensures var w' := Next(w, step);
      ((path in w'.files <==> path in w.files) && (path in w.files ==> w'.files[path] == w.files[path]))
      || (step.Rename? && Enabled(w, step) && path == w.calls[step.k].dest
          && path in w'.files && w'.files[path] == w.files[TempFor(path)])
  {
  }

  /** Over a run: a file that no download has for its temp file, and onto which none is renamed,
      stays as it was. */
  lemma {:induction false} FilesAreKept(w: World, steps: seq<Step>, path: string)
    requires forall k :: 0 <= k < |w.calls| ==> path != TempFor(w.calls[k].dest)
    requires forall i :: 0 <= i < |steps| && steps[i].Check? ==> path != TempFor(steps[i].dest)
    ensures var w' := Run(w, steps);
      && w.completed <= w'.completed
      && (path !in w'.completed[|w.completed|..] ==>
            (path in w'.files <==> path in w.files) && (path in w.files ==> w'.files[path] == w.files[path]))
    decreases |steps|
  {
    if steps != [] {
      var w1 := Next(w, steps[0]);
      var w' := Run(w, steps);
      OnlyRenamesChange(w, steps[0], path);
      FilesAreKept(w1, steps[1..], path);
      if path !in w'.completed[|w.completed|..] {
        assert w'.completed[|w.completed|..] == w1.completed[|w.completed|..] + w'.completed[|w1.completed|..];
      }
    }
  }

  lemma {:induction false} RunConcat(w: World, xs: seq<Step>, ys: seq<Step>)
    ensures Run(w, xs + ys) == Run(Run(w, xs), ys)
    decreases |xs|
  {
    if xs == [] {
      assert xs + ys == ys;
    } else {
      assert (xs + ys)[1..] == xs[1..] + ys;
      RunConcat(Next(w, xs[0]), xs[1..], ys);
    }
  }

  lemma RunPush(w: World, steps: seq<Step>, step: Step)
    ensures Run(w, steps + [step]) == Next(Run(w, steps), step)
  {
    RunConcat(w, steps, [step]);
    assert Run(Run(w, steps), [step]) == Run(Next(Run(w, steps), step), [step][1..]);
  }

  /** The race does happen: two starts check before either claims, and the second download replaces
      the file that the first one completed. */
  lemma OverwriteExample() returns (steps: seq<Step>)
    ensures var w := Run(Initial(map[]), steps);
      && At(w, 1, Running) && Enabled(w, Rename(1))
      && "a" in w.files && w.files["a"] == [1] && Next(w, Rename(1)).files["a"] == [2]
  {
    steps := [];
    steps := steps + [Check("a")];
    RunPush(Initial(map[]), [], Check("a"));
    assert [] + [Check("a")] == steps;
    RunPush(Initial(map[]), steps, Check("a"));
    steps := steps + [Check("a")];
    RunPush(Initial(map[]), steps, Claim(0));
    steps := steps + [Claim(0)];
    RunPush(Initial(map[]), steps, Write(0, [1]));
    steps := steps + [Write(0, [1])];
    RunPush(Initial(map[]), steps, Rename(0));
    steps := steps + [Rename(0)];
    RunPush(Initial(map[]), steps, Finish(0));
    steps := steps + [Finish(0)];
    RunPush(Initial(map[]), steps, Claim(1));
    steps := steps + [Claim(1)];
    RunPush(Initial(map[]), steps, Write(1, [2]));
    steps := steps + [Write(1, [2])];
  }

  /** Nor does the condition on completed downloads do when names clash: another download's temp file
      can be there at the claim although nothing has completed. */
  lemma ClashOverwriteExample() returns (steps: seq<Step>)
    ensures var w := Run(Initial(map[]), steps);
      At(w, 0, Running) && w.calls[0].dest == "a.part" && "a.part" in w.files && w.completed == []
  {
    steps := [Check("a.part")];
    RunPush(Initial(map[]), [], Check("a.part"));
    assert [] + [Check("a.part")] == steps;
    RunPush(Initial(map[]), steps, Check("a"));
    steps := steps + [Check("a")];
    RunPush(Initial(map[]), steps, Claim(1));
    steps := steps + [Claim(1)];
    RunPush(Initial(map[]), steps, Write(1, [1]));
    steps := steps + [Write(1, [1])];
    assert TempFor("a") == "a.part";
    RunPush(Initial(map[]), steps, GiveUp(1));
    steps := steps + [GiveUp(1)];
    RunPush(Initial(map[]), steps, Finish(1));
    steps := steps + [Finish(1)];
    RunPush(Initial(map[]), steps, Claim(0));
    steps := steps + [Claim(0)];
  }

  /** Nor is a file safe whose name is another download's temp file: clearing a stale temp file
      removes it, although no start was made for it. */
  lemma ClashExample()
    ensures var w := Run(Initial(map["a.part" := [7]]), [Check("a"), Claim(0), Discard(0)]);
      "a.part" !in w.files && w.completed == []
  {
    var w := Initial(map["a.part" := [7]]);
    RunPush(w, [], Check("a"));
    RunPush(w, [Check("a")], Claim(0));
    RunPush(w, [Check("a"), Claim(0)], Discard(0));
    assert [] + [Check("a")] == [Check("a")];
    assert [Check("a")] + [Claim(0)] == [Check("a"), Claim(0)];
    assert [Check("a"), Claim(0)] + [Discard(0)] == [Check("a"), Claim(0), Discard(0)];
    assert TempFor("a") == "a.part";
  }

  /** The name whose temp file `path` is, if it is one. */
  function OwnerOf(path: string): Option<string> {
    if |path| >= 5 && path == TempFor(path[..|path| - 5]) then Some(path[..|path| - 5]) else None
  }

  lemma OwnerOfTemp(path: string, x: string)
    ensures path == TempFor(x) <==> OwnerOf(path) == Some(x)
  {
    if path == TempFor(x) {
      assert path[..|path| - 5] == x;
    }
  }

  /** `path` is the temp file of a name that is absent, or that can itself be lost in this way. */
  predicate Exposed(files: Files, names: set<string>, path: string)
    decreases |path|
  {
    match OwnerOf(path)
    case None => false
    case Some(x) => x in names && (x !in files || Exposed(files, names, x))
  }

  ghost predicate Kept(files: Files, w: World, path: string) {
    path in files ==> path in w.files && w.files[path] == files[path]
  }

  /** The files that are not exposed are as they were, and no download that got past its check can
      touch them. */
  ghost predicate SafeInv(files: Files, names: set<string>, w: World) {
    && (forall path :: path in files && !Exposed(files, names, path) ==> Kept(files, w, path))
    && (forall k, path ::
          0 <= k < |w.calls| && w.calls[k].pc != Refused && path in files && !Exposed(files, names, path) ==>
          path != w.calls[k].dest && path != TempFor(w.calls[k].dest))
  }

  lemma StepKeepsSafe(files: Files, names: set<string>, w: World, step: Step)
    requires SafeInv(files, names, w) && StepNames(step, names)
    ensures SafeInv(files, names, Next(w, step))
  {
    var w' := Next(w, step);
    forall k, path | 0 <= k < |w'.calls| && w'.calls[k].pc != Refused && path in files && !Exposed(files, names, path)
      ensures path != w'.calls[k].dest && path != TempFor(w'.calls[k].dest)
    {
      if k == |w.calls| {
        var x := step.dest;
        OwnerOfTemp(path, x);
        assert Kept(files, w, path);
        assert x in files && !Exposed(files, names, x) ==> Kept(files, w, x);
      } else {
        assert w.calls[k].pc != Refused;
      }
    }
    forall path | path in files && !Exposed(files, names, path)
      ensures Kept(files, w', path)
    {
      assert Kept(files, w, path);
    }
  }

  lemma {:induction false} RunKeepsSafe(files: Files, names: set<string>, w: World, steps: seq<Step>)
    requires SafeInv(files, names, w) && AllNames(steps, names)
    ensures SafeInv(files, names, Run(w, steps))
    decreases |steps|
  {
    if steps != [] {
      StepKeepsSafe(files, names, w, steps[0]);
      RunKeepsSafe(files, names, Next(w, steps[0]), steps[1..]);
    }
  }

  /** A download of `x` that clears its temp file and gives up, when `x` is absent and the slot is free. */
  lemma ClearTemp(w: World, x: string) returns (steps: seq<Step>)
    requires x !in w.files && w.active == None
    ensures forall i :: 0 <= i < |steps| ==> StepNames(steps[i], {x})
    ensures Run(w, steps).files == w.files - {TempFor(x)} && Run(w, steps).active == None
  {
    hide Run;
    var k := |w.calls|;
    steps := [Check(x), Claim(k), Discard(k), GiveUp(k), Finish(k)];
    RunNone(w);
    RunPush(w, [], Check(x));
    RunPush(w, [Check(x)], Claim(k));
    RunPush(w, [Check(x), Claim(k)], Discard(k));
    RunPush(w, [Check(x), Claim(k), Discard(k)], GiveUp(k));
    RunPush(w, [Check(x), Claim(k), Discard(k), GiveUp(k)], Finish(k));
    assert [] + [Check(x)] == [Check(x)];
    assert [Check(x)] + [Claim(k)] == [Check(x), Claim(k)];
    assert [Check(x), Claim(k)] + [Discard(k)] == [Check(x), Claim(k), Discard(k)];
    assert [Check(x), Claim(k), Discard(k)] + [GiveUp(k)] == [Check(x), Claim(k), Discard(k), GiveUp(k)];
    assert [Check(x), Claim(k), Discard(k), GiveUp(k)] + [Finish(k)] == steps;
  }

  lemma RunNone(w: World)
    ensures Run(w, []) == w
  {
  }

  /** A run that loses an exposed file. */
  lemma {:induction false} LoseExposed(files: Files, names: set<string>, path: string) returns (steps: seq<Step>)
    requires Exposed(files, names, path)
    ensures AllNames(steps, names)
    ensures path !in Run(Initial(files), steps).files && Run(Initial(files), steps).active == None
    decreases |path|
  {
    hide Run;
    var x := OwnerOf(path).value;
    OwnerOfTemp(path, x);
    var before: seq<Step> := [];
    RunNone(Initial(files));
    if x in files {
      before := LoseExposed(files, names, x);
    }
    var clear := ClearTemp(Run(Initial(files), before), x);
    RunConcat(Initial(files), before, clear);
    steps := before + clear;
    forall i | 0 <= i < |steps|
      ensures StepNames(steps[i], names)
    {
      if i >= |before| {
        assert StepNames(clear[i - |before|], {x});
      }
    }
  }

  /** Exactly the exposed ones of the files already in the store can be lost or changed, whatever
      downloads of the catalog's names are started and however they end. */
  lemma LostIffExposed(files: Files, names: set<string>, path: string)
    requires path in files
    ensures (exists steps :: AllNames(steps, names) && !Kept(files, Run(Initial(files), steps), path)) <==>
      Exposed(files, names, path)
  {
    if Exposed(files, names, path) {
      var steps := LoseExposed(files, names, path);
      assert !Kept(files, Run(Initial(files), steps), path);
    } else {
      forall steps | AllNames(steps, names)
        ensures Kept(files, Run(Initial(files), steps), path)
      {
        RunKeepsSafe(files, names, Initial(files), steps);
      }
    }
  }

  // ---- The background job is such a sequence of steps ----

  function Removal(k: nat, succeeds: bool): seq<Step> {
    if succeeds then [Discard(k)] else []
  }

  function FetchSteps(k: nat, fetch: Fetch): seq<Step> {
    match fetch
    case Fetched(content) => [Write(k, content)]
    case Broken(Some(content), _) => [Write(k, content)]
    case Broken(None, _) => []
  }

  function MirrorSteps(k: nat, attempts: seq<Attempt>, i: nat): seq<Step>
    requires i <= |attempts|
    decreases |attempts| - i
  {
    if i == |attempts| then [GiveUp(k)]
    else
      var a := attempts[i];
      FetchSteps(k, a.fetch) +
      if a.fetch.Broken? then Removal(k, a.removes) + MirrorSteps(k, attempts, i + 1)
      else if a.renames then [Rename(k)]
      else Removal(k, a.removes) + [GiveUp(k)]
  }

  lemma RunOne(w: World, step: Step)
    ensures Run(w, [step]) == Next(w, step)
  {
    RunPush(w, [], step);
    assert [] + [step] == [step];
  }

  lemma RemovalRuns(w: World, k: nat, succeeds: bool)
    requires At(w, k, Running)
    ensures Run(w, Removal(k, succeeds)) == w.(files := Removed(w.files, TempFor(w.calls[k].dest), succeeds))
  {
    if succeeds {
      RunOne(w, Discard(k));
    }
  }

  lemma FetchRuns(w: World, k: nat, fetch: Fetch)
    requires At(w, k, Running)
    ensures Run(w, FetchSteps(k, fetch)) == w.(files := Written(w.files, TempFor(w.calls[k].dest), fetch))
  {
    if fetch.Fetched? {
      RunOne(w, Write(k, fetch.content));
    } else if fetch.left.Some? {
      RunOne(w, Write(k, fetch.left.value));
    }
  }

  /** The last attempt of a download: the first fetch that succeeded. */
  lemma FetchedRuns(w: World, k: nat, a: Attempt)
    requires At(w, k, Running) && a.fetch.Fetched?
    ensures var dest := w.calls[k].dest;
      var w' := Run(w, FetchSteps(k, a.fetch) + if a.renames then [Rename(k)] else Removal(k, a.removes) + [GiveUp(k)]);
      && At(w', k, Ending(a.renames)) && w'.active == w.active
      && var files := Written(w.files, TempFor(dest), a.fetch);
         w'.files == if a.renames then (files - {TempFor(dest)})[dest := a.fetch.content]
                     else Removed(files, TempFor(dest), a.removes)
  {
    hide Run;
    var w1 := Run(w, FetchSteps(k, a.fetch));
    FetchRuns(w, k, a.fetch);
    if a.renames {
      RunConcat(w, FetchSteps(k, a.fetch), [Rename(k)]);
      RunOne(w1, Rename(k));
    } else {
      RunConcat(w, FetchSteps(k, a.fetch), Removal(k, a.removes) + [GiveUp(k)]);
      RunConcat(w1, Removal(k, a.removes), [GiveUp(k)]);
      RemovalRuns(w1, k, a.removes);
      RunOne(Run(w1, Removal(k, a.removes)), GiveUp(k));
    }
  }

  lemma {:induction false} MirrorsRun(w: World, k: nat, s: Status, mirrors: seq<string>, attempts: seq<Attempt>,
      i: nat, why: JobError)
    requires At(w, k, Running) && i <= |mirrors| == |attempts|
    ensures var e := TryMirrors(s, w.files, mirrors, w.calls[k].dest, attempts, i, why);
      var w' := Run(w, MirrorSteps(k, attempts, i));
      w'.files == e.files && At(w', k, Ending(e.status.state == Completed)) && w'.active == w.active
    decreases |mirrors| - i
  {
    hide Run, ReportedAll, Restarted, Written, FetchSteps, Removal;
    if i == |mirrors| {
      RunOne(w, GiveUp(k));
    } else {
      var a := attempts[i];
      if a.fetch.Fetched? {
        FetchedRuns(w, k, a);
      } else {
        var w1 := Run(w, FetchSteps(k, a.fetch));
        FetchRuns(w, k, a.fetch);
        var rest := Removal(k, a.removes) + MirrorSteps(k, attempts, i + 1);
        RunConcat(w, FetchSteps(k, a.fetch), rest);
        RunConcat(w1, Removal(k, a.removes), MirrorSteps(k, attempts, i + 1));
        RemovalRuns(w1, k, a.removes);
        var s' := ReportedAll(Restarted(s, mirrors[i], i), a.reports);
        MirrorsRun(Run(w1, Removal(k, a.removes)), k, s', mirrors, attempts, i + 1, MirrorFailed(a.fetch.why));
      }
    }
  }

  /** What the background job does to the store is a run of its own steps. */
  lemma JobRefinesSteps(w: World, k: nat, s: Status, mirrors: seq<string>, clears: bool, attempts: seq<Attempt>)
    requires At(w, k, Running) && |mirrors| == |attempts|
    ensures var e := Download(s, w.files, mirrors, w.calls[k].dest, clears, attempts);
      var w' := Run(w, Removal(k, clears) + MirrorSteps(k, attempts, 0));
      w'.files == e.files && At(w', k, Ending(e.status.state == Completed)) && w'.active == w.active
  {
    RemovalRuns(w, k, clears);
    RunConcat(w, Removal(k, clears), MirrorSteps(k, attempts, 0));
    MirrorsRun(Run(w, Removal(k, clears)), k, s, mirrors, attempts, 0, NoMirrors);
  }
}
