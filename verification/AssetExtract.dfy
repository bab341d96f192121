/** The extraction of bundled assets in libcore/assets_android.go, one file-system step at a
    time: any step may fail, and the process may die in any of them and start again. */
module AssetExtract {
  import opened AssetVersion
  import opened Common

  /** What is at a path: nothing, a part of an asset, or everything of one version of it. */
  datatype Content = Absent | Partial | Complete(version: string)

  /** The asset and its version file, the temporary file beside the asset, the directories that
      unpacking the dashboard creates, and old dashboards awaiting deletion. */
  datatype Disk = Disk(
    dst: Content,
    version: Option<string>,
    tmp: Content,
    unpacked: map<string, Content>,
    olds: map<string, Content>
  )

  /** One start of the application: the bundled version; whether the asset is one file or the
      dashboard with its top directory; whether a present asset is to be upgraded; the process. */
  datatype Launch = Launch(version: string, dashboard: bool, top: string, upgrades: bool, pid: string)

  /** The next step of the extraction. Drop removes the temporary file, after success or not. */
  datatype Pc =
    | Idle | StatDst | ReadVersion | RemoveDst | Open
    | WriteTmp | RenameTmp
    | ClearUnpacked | ClearOlds | WriteZip | Unzip | Glob | MoveOld | MoveNew | Rollback | RemoveOld
    | Drop(ok: bool)
    | WriteVersion

  /** A step is done, reports an error, or is the process's last. */
  datatype Ending = Done | Fails | Dies

  /** What a step that is not done leaves, where that can differ. */
  datatype Left = Left(content: Content, text: Option<string>, dirs: map<string, Content>, happened: bool)

  datatype Step = Begin(launch: Launch) | Next(end: Ending, left: Left)

  /** ok tells whether the last run has returned without an error. */
  datatype State = State(disk: Disk, pc: Pc, launch: Launch, ok: bool)

  /** RemoveAll stopped on its way. */
  predicate Removing(before: Content, after: Content) {
    after == before || (before != Absent && after != before && (after == Partial || after == Absent))
  }

  predicate RemovingAll(before: map<string, Content>, after: map<string, Content>) {
    forall k :: k in after ==> k in before && after[k] != Absent && Removing(before[k], after[k])
  }

  /** What can be left of a step that is not done. */
  predicate Possible(s: State, left: Left) {
    match s.pc
    // a single file is removed whole or not at all
    case RemoveDst =>
      Removing(s.disk.dst, left.content) && (s.launch.dashboard || left.content != Partial || s.disk.dst == Partial)
    case WriteTmp => !left.content.Complete?
    case WriteZip => !left.content.Complete?
    case ClearUnpacked => RemovingAll(s.disk.unpacked, left.dirs)
    case ClearOlds => RemovingAll(s.disk.olds, left.dirs)
    case Glob => RemovingAll(s.disk.unpacked, left.dirs)
    case Unzip => !left.content.Complete?
    case RemoveOld => RemovingAll(s.disk.olds, left.dirs)
    case WriteVersion => left.text == s.disk.version || (left.text.Some? && left.text.value <= s.launch.version)
    case _ => true
  }

  predicate Enabled(s: State, e: Step) {
    match e
    case Begin(_) => s.pc == Idle
    case Next(end, left) => s.pc != Idle && (end == Done || Possible(s, left))
  }

  // ---------------------------------------------------------------- the steps

  function Return(s: State, d: Disk, ok: bool): State {
    s.(disk := d, pc := Idle, ok := ok)
  }

  function Go(s: State, d: Disk, pc: Pc): State {
    s.(disk := d, pc := pc)
  }

  /** Stops when the process dies, goes on otherwise. */
  function GoOrDie(s: State, end: Ending, d: Disk, pc: Pc): State {
    if end == Dies then Return(s, d, false) else Go(s, d, pc)
  }

  function LookStep(s: State, end: Ending): State
    requires s.pc == StatDst || s.pc == ReadVersion
  {
    var d := s.disk;
    if end == Dies then Return(s, d, false)
    else if s.pc == StatDst then
      if end == Fails || d.dst == Absent then Go(s, d, Open)
      else if s.launch.upgrades then Go(s, d, ReadVersion)
      else Return(s, d, true)
    else if end == Fails || d.version == None then Go(s, d, RemoveDst)
    else if ShouldUpdateAsset(d.version.value, s.launch.version) then Go(s, d, Open)
    else Return(s, d, true)
  }

  /** extractFile: a copy under a temporary name, renamed over the asset. */
  function FileStep(s: State, end: Ending, left: Left): State
    requires s.pc == WriteTmp || s.pc == RenameTmp
  {
    var d := s.disk;
    if s.pc == WriteTmp then
      if end == Done then Go(s, d.(tmp := Complete(s.launch.version)), RenameTmp)
      else GoOrDie(s, end, d.(tmp := left.content), Drop(false))
    else
      var renamed := d.(dst := d.tmp, tmp := Absent);
      if end == Done then Go(s, renamed, Drop(true))
      else GoOrDie(s, end, if end == Dies && left.happened then renamed else d, Drop(false))
  }

  /** extractYacd up to the swap: leftovers go, the archive is copied and unpacked. */
  function UnpackStep(s: State, end: Ending, left: Left): State
    requires s.pc == ClearUnpacked || s.pc == ClearOlds || s.pc == WriteZip || s.pc == Unzip || s.pc == Glob
  {
    var d, l := s.disk, s.launch;
    match s.pc
    case ClearUnpacked => GoOrDie(s, end, d.(unpacked := if end == Done then map[] else left.dirs), ClearOlds)
    case ClearOlds => GoOrDie(s, end, d.(olds := if end == Done then map[] else left.dirs), WriteZip)
    case WriteZip =>
      if end == Done then Go(s, d.(tmp := Complete(l.version)), Unzip)
      else GoOrDie(s, end, d.(tmp := left.content), Drop(false))
    case Unzip =>
      if end == Done then Go(s, d.(unpacked := d.unpacked[l.top := Complete(l.version)]), Drop(true))
      else
        var cut := if left.content == Absent then d else d.(unpacked := d.unpacked[l.top := Partial]);
        GoOrDie(s, end, cut, Drop(false))
    case _ =>
      if end == Done && |d.unpacked| == 1 then Go(s, d, MoveOld)
      else Return(s, d.(unpacked := if end == Done then map[] else left.dirs), false)
  }

  /** extractYacd's swap: the old dashboard is moved aside, the new one into place; when that
      fails the old one is moved back. A directory cannot be renamed over
      one that holds something, as every directory does here. */
  function SwapStep(s: State, end: Ending, left: Left): State
    requires s.pc == MoveOld || s.pc == MoveNew || s.pc == Rollback || s.pc == RemoveOld
  {
    var d, l := s.disk, s.launch;
    match s.pc
    case MoveOld =>
      var movable := d.dst != Absent && l.pid !in d.olds;
      var moved := if movable then d.(dst := Absent, olds := d.olds[l.pid := d.dst]) else d;
      if end == Dies then Return(s, if left.happened then moved else d, false)
      else if end == Fails then (if left.happened then Go(s, d, MoveNew) else Return(s, d, false))
      else if movable || d.dst == Absent then Go(s, moved, MoveNew)
      else Return(s, d, false)
    case MoveNew =>
      var movable := d.dst == Absent && l.top in d.unpacked;
      var moved := if movable then d.(dst := d.unpacked[l.top], unpacked := d.unpacked - {l.top}) else d;
      if end == Dies then Return(s, if left.happened then moved else d, false)
      else if end == Done && movable then Go(s, moved, RemoveOld)
      else Go(s, d, Rollback)
    case Rollback =>
      var movable := d.dst == Absent && l.pid in d.olds;
      var moved := if movable then d.(dst := d.olds[l.pid], olds := d.olds - {l.pid}) else d;
      Return(s, if end == Done || (end == Dies && left.happened) then moved else d, false)
    case _ =>
      GoOrDie(s, end, d.(olds := if end == Done then d.olds - {l.pid} else left.dirs), WriteVersion)
  }

  function Apply(s: State, e: Step): State
    requires Enabled(s, e)
  {
    match e
    case Begin(launch) => State(s.disk, StatDst, launch, false)
    case Next(end, left) =>
      var d := s.disk;
      match s.pc
      case Idle => s
      case RemoveDst => GoOrDie(s, end, d.(dst := if end == Done then Absent else left.content), Open)
      case Open =>
        if end == Done then Go(s, d, if s.launch.dashboard then ClearUnpacked else WriteTmp) else Return(s, d, false)
      case Drop(ok) =>
        var dropped := if end == Done then d.(tmp := Absent) else d;
        if ok && end != Dies then Go(s, dropped, if s.launch.dashboard then Glob else WriteVersion)
        else Return(s, dropped, false)
      case WriteVersion =>
        Return(s, d.(version := if end == Done then Some(s.launch.version) else left.text), end == Done)
      case StatDst => LookStep(s, end)
      case ReadVersion => LookStep(s, end)
      case WriteTmp => FileStep(s, end, left)
      case RenameTmp => FileStep(s, end, left)
      case ClearUnpacked => UnpackStep(s, end, left)
      case ClearOlds => UnpackStep(s, end, left)
      case WriteZip => UnpackStep(s, end, left)
      case Unzip => UnpackStep(s, end, left)
      case Glob => UnpackStep(s, end, left)
      case MoveOld => SwapStep(s, end, left)
      case MoveNew => SwapStep(s, end, left)
      case Rollback => SwapStep(s, end, left)
      case RemoveOld => SwapStep(s, end, left)
  }

  /** A step that is done does what it is for, whatever could have been left of it. */
  lemma DoneLeavesNothingOpen(s: State, a: Left, b: Left)
    requires s.pc != Idle
    ensures Apply(s, Next(Done, a)) == Apply(s, Next(Done, b))
  {
  }

  lemma SwapTouches(s: State, end: Ending, left: Left)
    requires s.pc == MoveOld || s.pc == MoveNew || s.pc == Rollback || s.pc == RemoveOld
    ensures SwapStep(s, end, left).disk.version == s.disk.version
    ensures SwapStep(s, end, left).disk.dst != s.disk.dst ==> end != Fails && s.pc != RemoveOld
  {
  }

  lemma UnpackTouches(s: State, end: Ending, left: Left)
    requires s.pc == ClearUnpacked || s.pc == ClearOlds || s.pc == WriteZip || s.pc == Unzip || s.pc == Glob
    ensures UnpackStep(s, end, left).disk.version == s.disk.version
    ensures UnpackStep(s, end, left).disk.dst == s.disk.dst
  {
  }

  /** Which steps touch the asset and its version file: a step that reports an error has left the
      asset as it was, unless it was to remove it. */
  lemma WhatAStepTouches(s: State, e: Step)
    requires Enabled(s, e)
    ensures Apply(s, e).disk.version != s.disk.version ==> s.pc == WriteVersion
    ensures Apply(s, e).disk.dst != s.disk.dst ==>
              s.pc == RemoveDst
              || (e.end != Fails && (s.pc == RenameTmp || s.pc == MoveOld || s.pc == MoveNew || s.pc == Rollback))
  {
    if s.pc == MoveOld || s.pc == MoveNew || s.pc == Rollback || s.pc == RemoveOld {
      SwapTouches(s, e.end, e.left);
    } else if s.pc == ClearUnpacked || s.pc == ClearOlds || s.pc == WriteZip || s.pc == Unzip || s.pc == Glob {
      UnpackTouches(s, e.end, e.left);
    }
  }

  ghost predicate IsPath(run: seq<State>, steps: seq<Step>) {
    && |run| == |steps| + 1
    && forall k :: 0 <= k < |steps| ==> Enabled(run[k], steps[k]) && run[k + 1] == Apply(run[k], steps[k])
  }

  // ---------------------------------------------------------------- no broken asset is kept

  /** A partial asset has no version file. */
  predicate Kept(c: Content, version: Option<string>) {
    c == Partial ==> version == None
  }

  predicate Broken(d: Disk) {
    !Kept(d.dst, d.version)
  }

  /** An old dashboard under this process's number may still be moved into place. */
  predicate MayMoveBack(s: State) {
    var d := s.disk;
    && (UnzipPc(s.pc) || s.pc == MoveOld || s.pc == MoveNew || s.pc == Rollback
        || (s.pc == Drop(true) && s.launch.dashboard))
    && d.dst == Absent && d.unpacked.Keys <= {s.launch.top} && s.launch.pid in d.olds
  }

  predicate UnzipPc(pc: Pc) {
    pc == WriteZip || pc == Unzip || pc == Glob
  }

  predicate UnpackPc(pc: Pc) {
    UnzipPc(pc) || pc == ClearUnpacked || pc == ClearOlds
  }

  predicate SwapPc(pc: Pc) {
    pc == MoveOld || pc == MoveNew || pc == Rollback || pc == RemoveOld
  }

  predicate FilePc(pc: Pc) {
    pc == StatDst || pc == ReadVersion || pc == WriteTmp || pc == RenameTmp
  }

  predicate InvSafe(s: State) {
    var d, whole, top := s.disk, Complete(s.launch.version), s.launch.top;
    var ready := top in d.unpacked && d.unpacked[top] == whole;
    && Kept(d.dst, d.version)
    && (MayMoveBack(s) ==> Kept(d.olds[s.launch.pid], d.version))
    && (UnpackPc(s.pc) ==> s.launch.dashboard)
    && match s.pc
       case ReadVersion => d.dst != Absent
       case RemoveDst => d.version == None || !s.launch.dashboard
       case WriteTmp => !s.launch.dashboard
       case RenameTmp => !s.launch.dashboard && d.tmp == whole
       case Drop(ok) => ok ==> if s.launch.dashboard then ready else d.dst == whole
       case Glob => ready
       case MoveOld => ready && d.unpacked.Keys <= {top}
       case MoveNew => ready && d.unpacked.Keys <= {top}
       case Rollback => d.unpacked.Keys <= {top}
       case RemoveOld => d.dst == whole
       case WriteVersion => d.dst == whole
       case _ => true
  }

  /** Two errors that the code does not tell apart from a missing file. The dashboard's version
      file is there but cannot be read. Or the dashboard is missing while its version file is
      there, a partial old one of a process of the same number cannot be removed, and nothing else
      will stop the extraction. */
  predicate Hurts(s: State, e: Step) {
    var d, l := s.disk, s.launch;
    && e.Next? && e.end == Fails && d.version.Some?
    && (s.pc == ReadVersion || s.pc == ClearOlds)
    && (s.pc == ReadVersion ==> l.dashboard)
    && (s.pc == ClearOlds ==>
          d.dst == Absent && d.unpacked.Keys <= {l.top} && l.pid in e.left.dirs && e.left.dirs[l.pid] == Partial)
  }

  lemma OnlyKey(m: map<string, Content>, k: string)
    requires |m| == 1 && k in m
    ensures m.Keys <= {k}
  {
    forall x | x in m ensures x == k {
      if x != k {
        TwoKeys(m.Keys, x, k);
      }
    }
  }

  lemma TwoKeys(keys: set<string>, x: string, k: string)
    requires x in keys && k in keys && x != k
    ensures |keys| >= 2
  {
    assert |keys - {x}| == |keys| - 1 && k in keys - {x};
  }

  lemma MoveKeepsSafe(s: State, e: Step)
    requires InvSafe(s) && Enabled(s, e) && (s.pc == MoveOld || s.pc == MoveNew)
    ensures InvSafe(Apply(s, e)) <==> !Hurts(s, e)
  {
  }

  lemma RollbackKeepsSafe(s: State, e: Step)
    requires InvSafe(s) && Enabled(s, e) && (s.pc == Rollback || s.pc == RemoveOld)
    ensures InvSafe(Apply(s, e)) <==> !Hurts(s, e)
  {
  }

  lemma ClearKeepsSafe(s: State, e: Step)
    requires InvSafe(s) && Enabled(s, e) && (s.pc == ClearUnpacked || s.pc == ClearOlds)
    ensures InvSafe(Apply(s, e)) <==> !Hurts(s, e)
  {
  }

  lemma UnzipKeepsSafe(s: State, e: Step)
    requires InvSafe(s) && Enabled(s, e) && (s.pc == WriteZip || s.pc == Unzip)
    ensures InvSafe(Apply(s, e)) <==> !Hurts(s, e)
  {
    var m := s.disk.unpacked;
    assert m[s.launch.top := Complete(s.launch.version)].Keys == m.Keys + {s.launch.top};
  }

  lemma GlobKeepsSafe(s: State, e: Step)
    requires InvSafe(s) && Enabled(s, e) && s.pc == Glob
    ensures InvSafe(Apply(s, e)) <==> !Hurts(s, e)
  {
    if |s.disk.unpacked| == 1 { OnlyKey(s.disk.unpacked, s.launch.top); }
  }

  lemma FileKeepsSafe(s: State, e: Step)
    requires InvSafe(s) && Enabled(s, e) && FilePc(s.pc)
    ensures InvSafe(Apply(s, e)) <==> !Hurts(s, e)
  {
  }

  lemma OpenKeepsSafe(s: State, e: Step)
    requires InvSafe(s) && Enabled(s, e) && (s.pc == RemoveDst || s.pc == Open)
    ensures InvSafe(Apply(s, e)) <==> !Hurts(s, e)
  {
  }

  lemma EndKeepsSafe(s: State, e: Step)
    requires InvSafe(s) && Enabled(s, e) && (s.pc.Drop? || s.pc == WriteVersion)
    ensures InvSafe(Apply(s, e)) <==> !Hurts(s, e)
  {
  }

  /** Exactly the steps that hurt break the invariant. */
  lemma StepKeepsSafe(s: State, e: Step)
    requires InvSafe(s) && Enabled(s, e)
    ensures InvSafe(Apply(s, e)) <==> !Hurts(s, e)
  {
    match s.pc
    case Idle =>
    case StatDst => FileKeepsSafe(s, e);
    case ReadVersion => FileKeepsSafe(s, e);
    case WriteTmp => FileKeepsSafe(s, e);
    case RenameTmp => FileKeepsSafe(s, e);
    case RemoveDst => OpenKeepsSafe(s, e);
    case Open => OpenKeepsSafe(s, e);
    case Drop(_) => EndKeepsSafe(s, e);
    case WriteVersion => EndKeepsSafe(s, e);
    case ClearUnpacked => ClearKeepsSafe(s, e);
    case ClearOlds => ClearKeepsSafe(s, e);
    case WriteZip => UnzipKeepsSafe(s, e);
    case Unzip => UnzipKeepsSafe(s, e);
    case Glob => GlobKeepsSafe(s, e);
    case MoveOld => MoveKeepsSafe(s, e);
    case MoveNew => MoveKeepsSafe(s, e);
    case Rollback => RollbackKeepsSafe(s, e);
    case RemoveOld => RollbackKeepsSafe(s, e);
  }

  ghost predicate NoneHurts(run: seq<State>, steps: seq<Step>) {
    IsPath(run, steps) && forall m :: 0 <= m < |steps| ==> !Hurts(run[m], steps[m])
  }

  lemma {:induction false} PathKeepsSafe(run: seq<State>, steps: seq<Step>, k: nat)
    requires NoneHurts(run, steps) && InvSafe(run[0]) && k < |run|
    ensures InvSafe(run[k])
  {
    if k > 0 {
      PathKeepsSafe(run, steps, k - 1);
      StepKeepsSafe(run[k - 1], steps[k - 1]);
    }
  }

  /** With the process dying anywhere and any step failing but for those that hurt, the asset is
      always absent, complete, or without a version file. */
  lemma NoBrokenAssetIsKept(run: seq<State>, steps: seq<Step>, k: nat)
    requires NoneHurts(run, steps) && k < |run|
    requires run[0].pc == Idle && Kept(run[0].disk.dst, run[0].disk.version)
    ensures InvSafe(run[k])
    ensures var d := run[k].disk;
            d.dst == Absent || d.dst.Complete? || d.version == None
  {
    PathKeepsSafe(run, steps, k);
  }

  /** A run that returns without an error has put the bundled version and its version file in
      place, or has found a file that is not to be replaced and left everything alone. */
  lemma OkMeansCurrent(s: State, e: Step)
    requires InvSafe(s) && Enabled(s, e) && s.pc != Idle && Apply(s, e).pc == Idle && Apply(s, e).ok
    ensures var before, after, l := s.disk, Apply(s, e).disk, s.launch;
            || (after.dst == Complete(l.version) && after.version == Some(l.version))
            || (&& after == before && before.dst != Absent
                && (l.upgrades && s.pc != StatDst ==>
                      before.version.Some? && !IsStale(before.version.value, l.version)))
    ensures s.pc == StatDst ==> !s.launch.upgrades
  {
    if s.disk.version.Some? { UpdateIffStale(s.disk.version.value, s.launch.version); }
  }

  /** Without a further step that hurts, a broken asset with a version file may come about. */
  ghost predicate CanBreak(s: State) {
    exists run: seq<State>, steps: seq<Step> :: NoneHurts(run, steps) && run[0] == s && Broken(run[|steps|].disk)
  }

  /** The steps that hurt are exactly those that open the way to a broken asset. */
  lemma BreaksIffHurts(s: State, e: Step)
    requires InvSafe(s) && Enabled(s, e)
    ensures CanBreak(Apply(s, e)) <==> Hurts(s, e)
  {
    StepKeepsSafe(s, e);
    var t := Apply(s, e);
    if Hurts(s, e) {
      var run, steps;
      if s.pc == ReadVersion { run, steps := CutRemoval(t); } else { run, steps := MovedBack(t); }
      assert NoneHurts(run, steps) && run[0] == t && Broken(run[|steps|].disk);
    } else if CanBreak(t) {
      var run: seq<State>, steps: seq<Step> :| NoneHurts(run, steps) && run[0] == t && Broken(run[|steps|].disk);
      PathKeepsSafe(run, steps, |steps|);
    }
  }

  // ---------------------------------------------------------------- runs step by step

  const NOTHING := Left(Absent, None, map[], false)

  lemma OneMore(run: seq<State>, steps: seq<Step>, e: Step, t: State) returns (run': seq<State>, steps': seq<Step>)
    requires IsPath(run, steps) && Enabled(run[|steps|], e) && t == Apply(run[|steps|], e)
    ensures run' == run + [t] && steps' == steps + [e] && IsPath(run', steps') && run'[|steps'|] == t
  {
    run', steps' := run + [t], steps + [e];
  }

  /** A step that neither hurts nor, as far as its program point goes, hides an upgrade. */
  predicate Plain(s: State, e: Step) {
    e.Next? && s.pc != StatDst && s.pc != ReadVersion && (s.pc == ClearOlds ==> e.end == Done)
  }

  ghost predicate PlainPath(run: seq<State>, steps: seq<Step>) {
    IsPath(run, steps) && forall m :: 0 <= m < |steps| ==> Plain(run[m], steps[m])
  }

  lemma PlainMore(run: seq<State>, steps: seq<Step>, e: Step, t: State) returns (run': seq<State>, steps': seq<Step>)
    requires PlainPath(run, steps) && Enabled(run[|steps|], e) && t == Apply(run[|steps|], e) && Plain(run[|steps|], e)
    ensures run' == run + [t] && steps' == steps + [e] && PlainPath(run', steps') && run'[|steps'|] == t
  {
    run', steps' := run + [t], steps + [e];
  }

  /** A removal in which the process dies. */
  lemma CutRemoval(s: State) returns (run: seq<State>, steps: seq<Step>)
    requires s.pc == RemoveDst && s.launch.dashboard && s.disk.dst != Absent
    ensures PlainPath(run, steps) && run[0] == s
    ensures run[|steps|] == State(s.disk.(dst := Partial), Idle, s.launch, false)
  {
    run, steps := [s], [];
    run, steps := PlainMore(run, steps, Next(Dies, NOTHING.(content := Partial)),
                            State(s.disk.(dst := Partial), Idle, s.launch, false));
  }

  /** A new dashboard is unpacked and ready to be moved. */
  lemma Unpacked(s: State) returns (run: seq<State>, steps: seq<Step>)
    requires s.pc == WriteZip && s.launch.dashboard && s.disk.unpacked.Keys <= {s.launch.top}
    ensures PlainPath(run, steps) && run[0] == s
    ensures run[|steps|] ==
            s.(disk := s.disk.(tmp := Absent, unpacked := map[s.launch.top := Complete(s.launch.version)]),
               pc := MoveOld)
  {
    var go, d, whole := Next(Done, NOTHING), s.disk, Complete(s.launch.version);
    var unpacked := map[s.launch.top := whole];
    assert d.unpacked[s.launch.top := whole] == unpacked;
    run, steps := [s], [];
    run, steps := PlainMore(run, steps, go, s.(disk := d.(tmp := whole), pc := Unzip));
    run, steps := PlainMore(run, steps, go, s.(disk := d.(tmp := whole, unpacked := unpacked), pc := Drop(true)));
    run, steps := PlainMore(run, steps, go, s.(disk := d.(tmp := Absent, unpacked := unpacked), pc := Glob));
    run, steps := PlainMore(run, steps, go, s.(disk := d.(tmp := Absent, unpacked := unpacked), pc := MoveOld));
  }

  /** The new dashboard cannot be moved into place, and an old one of a process of the same number
      is moved there instead. */
  lemma MovedBack(s: State) returns (run: seq<State>, steps: seq<Step>)
    requires s.pc == WriteZip && s.launch.dashboard && s.disk.unpacked.Keys <= {s.launch.top}
    requires s.disk.dst == Absent && s.launch.pid in s.disk.olds
    ensures PlainPath(run, steps) && run[0] == s && run[|steps|].pc == Idle
    ensures run[|steps|].disk.dst == s.disk.olds[s.launch.pid] && run[|steps|].disk.version == s.disk.version
  {
    run, steps := Unpacked(s);
    var t, go, pid := run[|steps|], Next(Done, NOTHING), s.launch.pid;
    var back := t.disk.(dst := t.disk.olds[pid], olds := t.disk.olds - {pid});
    run, steps := PlainMore(run, steps, go, t.(pc := MoveNew));
    run, steps := PlainMore(run, steps, Next(Fails, NOTHING), t.(pc := Rollback));
    run, steps := PlainMore(run, steps, go, State(back, Idle, s.launch, false));
  }

  // ---------------------------------------------------------------- a run left alone

  /** The steps a run can still take. */
  function Rank(pc: Pc): nat {
    match pc
    case Idle => 0
    case StatDst => 14
    case ReadVersion => 13
    case RemoveDst => 12
    case Open => 11
    case ClearUnpacked => 10
    case ClearOlds => 9
    case WriteZip => 8
    case WriteTmp => 8
    case Unzip => 7
    case RenameTmp => 7
    case Drop(_) => 6
    case Glob => 5
    case MoveOld => 4
    case MoveNew => 3
    case Rollback => 2
    case RemoveOld => 2
    case WriteVersion => 1
  }

  lemma SwapRankDrops(s: State, end: Ending, left: Left)
    requires SwapPc(s.pc)
    ensures Rank(SwapStep(s, end, left).pc) < Rank(s.pc)
  {
  }

  lemma UnpackRankDrops(s: State, end: Ending, left: Left)
    requires UnpackPc(s.pc)
    ensures Rank(UnpackStep(s, end, left).pc) < Rank(s.pc)
  {
  }

  lemma FileRankDrops(s: State, end: Ending, left: Left)
    requires Enabled(s, Next(end, left)) && FilePc(s.pc)
    ensures Rank(Apply(s, Next(end, left)).pc) < Rank(s.pc)
  {
  }

  lemma SmallRankDrops(s: State, end: Ending, left: Left)
    requires Enabled(s, Next(end, left)) && (s.pc == RemoveDst || s.pc == Open || s.pc.Drop? || s.pc == WriteVersion)
    ensures Rank(Apply(s, Next(end, left)).pc) < Rank(s.pc)
  {
  }

  /** Every run returns, whatever happens to its steps. */
  lemma RankDrops(s: State, end: Ending, left: Left)
    requires Enabled(s, Next(end, left))
    ensures Rank(Apply(s, Next(end, left)).pc) < Rank(s.pc)
  {
    if SwapPc(s.pc) {
      SwapRankDrops(s, end, left);
    } else if UnpackPc(s.pc) {
      UnpackRankDrops(s, end, left);
    } else if FilePc(s.pc) {
      FileRankDrops(s, end, left);
    } else {
      SmallRankDrops(s, end, left);
    }
  }

  /** The rest of a run in which every step is done. */
  function Drive(s: State): State
    decreases Rank(s.pc)
  {
    if s.pc == Idle then s
    else (RankDrops(s, Done, NOTHING); Drive(Apply(s, Next(Done, NOTHING))))
  }

  function Uninterrupted(d: Disk, launch: Launch): State {
    Drive(State(d, StatDst, launch, false))
  }

  predicate NeedsExtraction(d: Disk, launch: Launch) {
    d.dst == Absent
    || (launch.upgrades && (d.version == None || IsStale(d.version.value, launch.version)))
  }

  lemma Then(s: State, t: State)
    requires s.pc != Idle && t == Apply(s, Next(Done, NOTHING))
    ensures Drive(s) == Drive(t)
  {
  }

  lemma FileIsInPlace(s: State)
    requires s.pc == Drop(true) && !s.launch.dashboard && s.disk.tmp == Absent
    ensures Drive(s) == State(s.disk.(version := Some(s.launch.version)), Idle, s.launch, true)
  {
    var write := s.(pc := WriteVersion);
    Then(s, write);
    Then(write, State(s.disk.(version := Some(s.launch.version)), Idle, s.launch, true));
  }

  lemma FileIsExtracted(s: State)
    requires s.pc == Open && !s.launch.dashboard
    ensures Drive(s) ==
            State(s.disk.(dst := Complete(s.launch.version), tmp := Absent, version := Some(s.launch.version)),
                  Idle, s.launch, true)
  {
    var whole := Complete(s.launch.version);
    var write := s.(pc := WriteTmp);
    var rename := s.(disk := s.disk.(tmp := whole), pc := RenameTmp);
    var drop := s.(disk := s.disk.(dst := whole, tmp := Absent), pc := Drop(true));
    Then(s, write);
    Then(write, rename);
    Then(rename, drop);
    FileIsInPlace(drop);
  }

  lemma LeftoversAreCleared(s: State)
    requires s.pc == Open && s.launch.dashboard
    ensures Drive(s) == Drive(s.(disk := s.disk.(unpacked := map[], olds := map[]), pc := WriteZip))
  {
    var d := s.disk;
    var clear := s.(pc := ClearUnpacked);
    var clearOlds := s.(disk := d.(unpacked := map[]), pc := ClearOlds);
    Then(s, clear);
    Then(clear, clearOlds);
    Then(clearOlds, s.(disk := d.(unpacked := map[], olds := map[]), pc := WriteZip));
  }

  lemma ArchiveIsDropped(s: State)
    requires s.pc == Drop(true) && s.launch.dashboard && |s.disk.unpacked| == 1
    ensures Drive(s) == Drive(s.(disk := s.disk.(tmp := Absent), pc := MoveOld))
  {
    var glob := s.(disk := s.disk.(tmp := Absent), pc := Glob);
    Then(s, glob);
    Then(glob, glob.(pc := MoveOld));
  }

  lemma DashboardIsUnpacked(s: State)
    requires s.pc == WriteZip && s.launch.dashboard && s.disk.unpacked == map[]
    ensures Drive(s) ==
            Drive(s.(disk := s.disk.(tmp := Absent, unpacked := map[s.launch.top := Complete(s.launch.version)]),
                     pc := MoveOld))
  {
    var whole := Complete(s.launch.version);
    var zipped := s.disk.(tmp := whole);
    var unpacked := zipped.(unpacked := map[s.launch.top := whole]);
    var unzip, drop := s.(disk := zipped, pc := Unzip), s.(disk := unpacked, pc := Drop(true));
    Then(s, unzip);
    Then(unzip, drop);
    ArchiveIsDropped(drop);
  }

  lemma OldIsRemoved(s: State)
    requires s.pc == RemoveOld && s.disk.olds.Keys <= {s.launch.pid}
    ensures Drive(s) == State(s.disk.(olds := map[], version := Some(s.launch.version)), Idle, s.launch, true)
  {
    var write := s.(disk := s.disk.(olds := map[]), pc := WriteVersion);
    assert s.disk.olds - {s.launch.pid} == map[];
    Then(s, write);
    Then(write, State(write.disk.(version := Some(s.launch.version)), Idle, s.launch, true));
  }

  lemma DashboardIsSwapped(s: State)
    requires s.pc == MoveOld
    requires s.disk.unpacked == map[s.launch.top := Complete(s.launch.version)] && s.disk.olds == map[]
    ensures Drive(s) ==
            State(s.disk.(dst := Complete(s.launch.version), unpacked := map[], version := Some(s.launch.version)),
                  Idle, s.launch, true)
  {
    var d, whole := s.disk, Complete(s.launch.version);
    var olds := if d.dst == Absent then map[] else map[s.launch.pid := d.dst];
    var moved := s.(disk := d.(dst := Absent, olds := olds), pc := MoveNew);
    var swapped := s.(disk := d.(dst := whole, unpacked := map[], olds := olds), pc := RemoveOld);
    Then(s, moved);
    assert d.unpacked - {s.launch.top} == map[];
    Then(moved, swapped);
    OldIsRemoved(swapped);
  }

  lemma DashboardIsExtracted(s: State)
    requires s.pc == Open && s.launch.dashboard
    ensures Drive(s) ==
            State(s.disk.(dst := Complete(s.launch.version), tmp := Absent, unpacked := map[], olds := map[],
                          version := Some(s.launch.version)),
                  Idle, s.launch, true)
  {
    LeftoversAreCleared(s);
    var zip := s.(disk := s.disk.(unpacked := map[], olds := map[]), pc := WriteZip);
    DashboardIsUnpacked(zip);
    var unpacked := map[s.launch.top := Complete(s.launch.version)];
    DashboardIsSwapped(zip.(disk := zip.disk.(tmp := Absent, unpacked := unpacked), pc := MoveOld));
  }

  /** A run left alone ends without an error: it puts the complete bundled version and its version
      file in place, whatever state an earlier run was cut short in, and changes nothing when the
      asset needs no extraction. */
  lemma RunHeals(d: Disk, launch: Launch)
    ensures var r := Uninterrupted(d, launch);
            && r.pc == Idle && r.ok
            && (NeedsExtraction(d, launch) ==>
                  && r.disk.dst == Complete(launch.version) && r.disk.version == Some(launch.version)
                  && r.disk.tmp == Absent
                  && (launch.dashboard ==> r.disk.unpacked == map[] && r.disk.olds == map[]))
            && (!NeedsExtraction(d, launch) ==> r.disk == d)
  {
    var s := State(d, StatDst, launch, false);
    var open := s.(pc := Open);
    var read := s.(pc := ReadVersion);
    if d.dst == Absent {
      Then(s, open);
    } else if launch.upgrades {
      Then(s, read);
      if d.version.Some? { UpdateIffStale(d.version.value, launch.version); }
      if d.version == None {
        open := s.(disk := d.(dst := Absent), pc := Open);
        Then(read, s.(pc := RemoveDst));
        Then(s.(pc := RemoveDst), open);
      } else if IsStale(d.version.value, launch.version) {
        Then(read, open);
      } else {
        Then(read, State(d, Idle, launch, true));
      }
    } else {
      Then(s, State(d, Idle, launch, true));
    }
    if launch.dashboard { DashboardIsExtracted(open); } else { FileIsExtracted(open); }
  }
}
