/** Which version of an asset is in place after runs that were cut short, and the inputs for
    which the extraction does not keep its promises. */
module AssetOrder {
  import opened AssetExtract
  import opened AssetVersion
  import opened Common

  /** A version file does not claim more than the asset beside it is. */
  predicate Honest(c: Content, version: Option<string>) {
    version.Some? && Number(version.value).Some? && c.Complete? ==>
      Number(c.version).Some? && Number(version.value).value <= Number(c.version).value
  }

  /** The version file marks the user's own file. */
  predicate Marked(version: Option<string>) {
    version == Some("Custom")
  }

  /** The version file claims more than the bundle. */
  predicate ClaimsMore(s: State) {
    && s.disk.version.Some? && Number(s.disk.version.value).Some? && Number(s.launch.version).Some?
    && Number(s.disk.version.value).value > Number(s.launch.version).value
  }

  /** The bundle may still replace the asset. */
  predicate Extracting(pc: Pc) {
    UnpackPc(pc) || pc == RemoveDst || pc == Open || pc == WriteTmp || pc == RenameTmp || pc == Drop(true)
    || pc == MoveOld || pc == MoveNew
  }

  predicate InOrder(s: State) {
    && !Marked(s.disk.version) && Honest(s.disk.dst, s.disk.version)
    && (s.pc != Idle ==> Number(s.launch.version).Some?)
    && (Extracting(s.pc) ==> (s.pc == Drop(true) && !s.launch.dashboard) || !ClaimsMore(s))
    && (MayMoveBack(s) ==> Honest(s.disk.olds[s.launch.pid], s.disk.version))
  }

  predicate InvOrder(s: State) {
    InvSafe(s) && InOrder(s)
  }

  /** Bundles have numeric versions. */
  predicate Numeric(e: Step) {
    e.Begin? ==> Number(e.launch.version).Some?
  }

  /** The steps after which the version file may claim more than the asset is. The bundle is older
      than the version file says and is extracted all the same, because the asset is missing, or
      cannot be looked at, or its version file cannot be read. Or the dashboard is missing, and an
      old one that is older than the version file says cannot be removed. */
  predicate Hides(s: State, e: Step) {
    var d, l := s.disk, s.launch;
    && e.Next? && e.end != Dies
    && match s.pc
       case StatDst => ClaimsMore(s) && (e.end == Fails || d.dst == Absent)
       case ReadVersion => ClaimsMore(s) && e.end == Fails
       case ClearOlds =>
         && e.end == Fails && d.dst == Absent && d.unpacked.Keys <= {l.top} && l.pid in e.left.dirs
         && !Honest(e.left.dirs[l.pid], d.version)
       case _ => false
  }

  lemma MoveOldKeepsOrder(s: State, e: Step)
    requires InvOrder(s) && Enabled(s, e) && s.pc == MoveOld
    ensures InOrder(Apply(s, e))
  {
  }

  lemma MoveNewKeepsOrder(s: State, e: Step)
    requires InvOrder(s) && Enabled(s, e) && s.pc == MoveNew
    ensures InOrder(Apply(s, e))
  {
  }

  lemma RollbackKeepsOrder(s: State, e: Step)
    requires InvOrder(s) && Enabled(s, e) && (s.pc == Rollback || s.pc == RemoveOld)
    ensures InOrder(Apply(s, e))
  {
  }

  lemma ClearKeepsOrder(s: State, e: Step)
    requires InvOrder(s) && Enabled(s, e) && !Hurts(s, e) && (s.pc == ClearUnpacked || s.pc == ClearOlds)
    ensures InOrder(Apply(s, e)) <==> !Hides(s, e)
  {
  }

  lemma WriteZipKeepsOrder(s: State, e: Step)
    requires InvOrder(s) && Enabled(s, e) && s.pc == WriteZip
    ensures InOrder(Apply(s, e))
  {
  }

  lemma UnzipKeepsOrder(s: State, e: Step)
    requires InvOrder(s) && Enabled(s, e) && s.pc == Unzip
    ensures InOrder(Apply(s, e))
  {
    var m := s.disk.unpacked;
    assert m[s.launch.top := Complete(s.launch.version)].Keys == m.Keys + {s.launch.top};
  }

  lemma GlobKeepsOrder(s: State, e: Step)
    requires InvOrder(s) && Enabled(s, e) && s.pc == Glob
    ensures InOrder(Apply(s, e))
  {
  }

  lemma LookKeepsOrder(s: State, e: Step)
    requires InvOrder(s) && Enabled(s, e) && !Hurts(s, e) && (s.pc == StatDst || s.pc == ReadVersion)
    ensures InOrder(Apply(s, e)) <==> !Hides(s, e)
  {
  }

  lemma WriteTmpKeepsOrder(s: State, e: Step)
    requires InvOrder(s) && Enabled(s, e) && s.pc == WriteTmp
    ensures InOrder(Apply(s, e))
  {
  }

  lemma RenameTmpKeepsOrder(s: State, e: Step)
    requires InvOrder(s) && Enabled(s, e) && s.pc == RenameTmp
    ensures InOrder(Apply(s, e))
  {
  }

  lemma WrittenIsHonest(c: Content, text: string, version: string)
    requires c == Complete(version) && text <= version && Number(version).Some?
    ensures Honest(c, Some(text)) && !Marked(Some(text))
  {
    CutShort(text, version);
  }

  lemma WriteKeepsOrder(s: State, e: Step)
    requires InvOrder(s) && Enabled(s, e) && s.pc == WriteVersion
    ensures InOrder(Apply(s, e))
  {
    var text := Apply(s, e).disk.version;
    if text != s.disk.version { WrittenIsHonest(s.disk.dst, text.value, s.launch.version); }
  }

  lemma DropKeepsOrder(s: State, e: Step)
    requires InvOrder(s) && Enabled(s, e) && s.pc.Drop?
    ensures InOrder(Apply(s, e))
  {
  }

  lemma OpenKeepsOrder(s: State, e: Step)
    requires InvOrder(s) && Enabled(s, e) && (s.pc == RemoveDst || s.pc == Open)
    ensures InOrder(Apply(s, e))
  {
  }

  /** Exactly the steps that hide break the invariant. */
  lemma StepKeepsOrder(s: State, e: Step)
    requires InvOrder(s) && Enabled(s, e) && Numeric(e) && !Hurts(s, e)
    ensures InvOrder(Apply(s, e)) <==> !Hides(s, e)
  {
    StepKeepsSafe(s, e);
    match s.pc
    case Idle =>
    case StatDst => LookKeepsOrder(s, e);
    case ReadVersion => LookKeepsOrder(s, e);
    case WriteTmp => WriteTmpKeepsOrder(s, e);
    case RenameTmp => RenameTmpKeepsOrder(s, e);
    case RemoveDst => OpenKeepsOrder(s, e);
    case Open => OpenKeepsOrder(s, e);
    case Drop(_) => DropKeepsOrder(s, e);
    case WriteVersion => WriteKeepsOrder(s, e);
    case ClearUnpacked => ClearKeepsOrder(s, e);
    case ClearOlds => ClearKeepsOrder(s, e);
    case WriteZip => WriteZipKeepsOrder(s, e);
    case Unzip => UnzipKeepsOrder(s, e);
    case Glob => GlobKeepsOrder(s, e);
    case MoveOld => MoveOldKeepsOrder(s, e);
    case MoveNew => MoveNewKeepsOrder(s, e);
    case Rollback => RollbackKeepsOrder(s, e);
    case RemoveOld => RollbackKeepsOrder(s, e);
  }

  /** Every step is of a numeric bundle and neither hurts nor hides. */
  ghost predicate NoneHides(run: seq<State>, steps: seq<Step>) {
    IsPath(run, steps) &&
    forall m :: 0 <= m < |steps| ==> Numeric(steps[m]) && !Hurts(run[m], steps[m]) && !Hides(run[m], steps[m])
  }

  lemma {:induction false} PathKeepsOrder(run: seq<State>, steps: seq<Step>, k: nat)
    requires NoneHides(run, steps) && InvOrder(run[0]) && k < |run|
    ensures InvOrder(run[k])
  {
    if k > 0 {
      PathKeepsOrder(run, steps, k - 1);
      StepKeepsOrder(run[k - 1], steps[k - 1]);
    }
  }

  /** Without a further step that hurts or hides, a version file may come to claim more than the
      asset is. */
  ghost predicate CanHide(s: State) {
    exists run: seq<State>, steps: seq<Step> ::
      NoneHides(run, steps) && run[0] == s && !Honest(run[|steps|].disk.dst, run[|steps|].disk.version)
  }

  /** A single file is put in place by a process that then dies. */
  lemma FileCutShort(s: State) returns (run: seq<State>, steps: seq<Step>)
    requires s.pc == Open && !s.launch.dashboard
    ensures PlainPath(run, steps) && run[0] == s
    ensures run[|steps|] == State(s.disk.(dst := Complete(s.launch.version), tmp := Absent), Idle, s.launch, false)
  {
    var go, d, whole := Next(Done, NOTHING), s.disk, Complete(s.launch.version);
    run, steps := [s], [];
    run, steps := PlainMore(run, steps, go, s.(pc := WriteTmp));
    run, steps := PlainMore(run, steps, go, s.(disk := d.(tmp := whole), pc := RenameTmp));
    run, steps := PlainMore(run, steps, Next(Dies, NOTHING.(happened := true)),
                            State(d.(dst := whole, tmp := Absent), Idle, s.launch, false));
  }

  /** So is a dashboard. */
  lemma DashboardCutShort(s: State) returns (run: seq<State>, steps: seq<Step>)
    requires s.pc == Open && s.launch.dashboard
    ensures PlainPath(run, steps) && run[0] == s
    ensures run[|steps|].disk.dst == Complete(s.launch.version) && run[|steps|].disk.version == s.disk.version
  {
    var go, d := Next(Done, NOTHING), s.disk;
    run, steps := [s], [];
    run, steps := PlainMore(run, steps, go, s.(pc := ClearUnpacked));
    run, steps := PlainMore(run, steps, go, s.(disk := d.(unpacked := map[]), pc := ClearOlds));
    run, steps := PlainMore(run, steps, go, s.(disk := d.(unpacked := map[], olds := map[]), pc := WriteZip));
    var run', steps' := SwappedIn(run[|steps|]);
    run, steps := Join(run, steps, run', steps');
  }

  lemma SwappedIn(s: State) returns (run: seq<State>, steps: seq<Step>)
    requires s.pc == WriteZip && s.launch.dashboard && s.disk.unpacked == map[] && s.disk.olds == map[]
    ensures PlainPath(run, steps) && run[0] == s
    ensures run[|steps|].disk.dst == Complete(s.launch.version) && run[|steps|].disk.version == s.disk.version
  {
    run, steps := Unpacked(s);
    var t, go, l := run[|steps|], Next(Done, NOTHING), s.launch;
    var d := t.disk;
    var moved := if d.dst == Absent then d else d.(dst := Absent, olds := map[l.pid := d.dst]);
    var swapped := moved.(dst := Complete(l.version), unpacked := moved.unpacked - {l.top});
    run, steps := PlainMore(run, steps, go, t.(disk := moved, pc := MoveNew));
    run, steps := PlainMore(run, steps, Next(Dies, NOTHING.(happened := true)), State(swapped, Idle, l, false));
  }

  lemma JoinPaths(run: seq<State>, steps: seq<Step>, run2: seq<State>, steps2: seq<Step>)
    returns (run': seq<State>, steps': seq<Step>)
    requires IsPath(run, steps) && IsPath(run2, steps2) && run2[0] == run[|steps|]
    ensures run' == run + run2[1..] && steps' == steps + steps2
    ensures IsPath(run', steps') && run'[|steps'|] == run2[|steps2|]
  {
    run', steps' := run + run2[1..], steps + steps2;
    forall m | 0 <= m < |steps'| ensures Enabled(run'[m], steps'[m]) && run'[m + 1] == Apply(run'[m], steps'[m]) {
      if m >= |steps| {
        var k := m - |steps|;
        assert steps'[m] == steps2[k] && run'[m] == run2[k] && run'[m + 1] == run2[k + 1];
      } else {
        assert steps'[m] == steps[m] && run'[m] == run[m] && run'[m + 1] == run[m + 1];
      }
    }
  }

  lemma Join(run: seq<State>, steps: seq<Step>, run2: seq<State>, steps2: seq<Step>)
    returns (run': seq<State>, steps': seq<Step>)
    requires PlainPath(run, steps) && PlainPath(run2, steps2) && run2[0] == run[|steps|]
    ensures PlainPath(run', steps') && run'[0] == run[0] && run'[|steps'|] == run2[|steps2|]
  {
    run', steps' := JoinPaths(run, steps, run2, steps2);
    forall m | 0 <= m < |steps'| ensures Plain(run'[m], steps'[m]) {
      if m >= |steps| {
        assert Plain(run2[m - |steps|], steps2[m - |steps|]) && run'[m] == run2[m - |steps|];
      } else {
        assert Plain(run[m], steps[m]) && run'[m] == run[m];
      }
    }
  }

  lemma ExtractionCutShort(s: State) returns (run: seq<State>, steps: seq<Step>)
    requires s.pc == Open
    ensures PlainPath(run, steps) && run[0] == s
    ensures run[|steps|].disk.dst == Complete(s.launch.version) && run[|steps|].disk.version == s.disk.version
  {
    if s.launch.dashboard { run, steps := DashboardCutShort(s); } else { run, steps := FileCutShort(s); }
  }

  lemma PlainHidesNothing(run: seq<State>, steps: seq<Step>)
    requires PlainPath(run, steps)
    ensures NoneHides(run, steps)
  {
  }

  /** After a step that hides, the way it may end. */
  lemma HidingEnds(s: State, e: Step) returns (run: seq<State>, steps: seq<Step>)
    requires InvOrder(s) && Enabled(s, e) && !Hurts(s, e) && Hides(s, e)
    ensures PlainPath(run, steps) && run[0] == Apply(s, e)
    ensures !Honest(run[|steps|].disk.dst, run[|steps|].disk.version)
  {
    var t := Apply(s, e);
    if s.pc == ClearOlds {
      run, steps := MovedBack(t);
    } else if s.pc == StatDst {
      run, steps := ExtractionCutShort(t);
    } else {
      run, steps := [t], [];
      run, steps := PlainMore(run, steps, Next(Done, NOTHING), t.(disk := t.disk.(dst := Absent), pc := Open));
      var run', steps' := ExtractionCutShort(run[1]);
      run, steps := Join(run, steps, run', steps');
    }
  }

  /** The steps that hide are exactly those that open the way to a version file that claims more
      than the asset is. */
  lemma HidesIffMayClaimMore(s: State, e: Step)
    requires InvOrder(s) && Enabled(s, e) && Numeric(e) && !Hurts(s, e)
    ensures CanHide(Apply(s, e)) <==> Hides(s, e)
  {
    StepKeepsOrder(s, e);
    var t := Apply(s, e);
    if Hides(s, e) {
      var run, steps := HidingEnds(s, e);
      PlainHidesNothing(run, steps);
    } else if CanHide(t) {
      var run: seq<State>, steps: seq<Step> :|
        NoneHides(run, steps) && run[0] == t && !Honest(run[|steps|].disk.dst, run[|steps|].disk.version);
      PathKeepsOrder(run, steps, |steps|);
    }
  }

  /** From a disk in order, after any number of runs of numeric bundles, newer or older, cut short
      anywhere, in which no step hurts or hides: a run left alone leaves a complete asset that is no
      older than its bundle, and the bundled one when the asset was older or broken. */
  lemma NewestIsInPlace(run: seq<State>, steps: seq<Step>, launch: Launch)
    requires NoneHides(run, steps) && run[0].pc == Idle && run[|steps|].pc == Idle
    requires var d := run[0].disk; Kept(d.dst, d.version) && Honest(d.dst, d.version) && !Marked(d.version)
    requires launch.upgrades && Number(launch.version).Some?
    ensures var before, after := run[|steps|].disk, Uninterrupted(run[|steps|].disk, launch).disk;
            && after.dst.Complete? && Number(after.dst.version).Some?
            && Number(launch.version).value <= Number(after.dst.version).value
            && (!before.dst.Complete? || Number(before.dst.version) == None
                || Number(before.dst.version).value < Number(launch.version).value ==>
                  after.dst == Complete(launch.version) && after.version == Some(launch.version))
  {
    PathKeepsOrder(run, steps, |steps|);
    RunHeals(run[|steps|].disk, launch);
  }

  // ---------------------------------------------------------------- where it does not hold

  /** A version file that is there but cannot be read once, and a process that dies while it
      removes the asset, leave a broken asset that a later run takes for the current version. */
  lemma UnreadableVersionFileKeepsABrokenAsset(version: string, top: string, pid: string)
    returns (run: seq<State>, steps: seq<Step>)
    ensures IsPath(run, steps) && run[0].pc == Idle && Kept(run[0].disk.dst, run[0].disk.version)
    ensures |steps| == 4 && run[4].pc == Idle && run[4].disk.dst == Partial
    ensures forall launch: Launch :: launch.version == version ==>
              Uninterrupted(run[4].disk, launch).ok && Uninterrupted(run[4].disk, launch).disk.dst == Partial
  {
    var d := Disk(Complete(version), Some(version), Absent, map[], map[]);
    var launch := Launch(version, true, top, true, pid);
    var go := Next(Done, NOTHING);
    run, steps := [State(d, Idle, launch, true)], [];
    run, steps := OneMore(run, steps, Begin(launch), State(d, StatDst, launch, false));
    run, steps := OneMore(run, steps, go, State(d, ReadVersion, launch, false));
    run, steps := OneMore(run, steps, Next(Fails, NOTHING), State(d, RemoveDst, launch, false));
    run, steps := OneMore(run, steps, Next(Dies, NOTHING.(content := Partial)),
                          State(d.(dst := Partial), Idle, launch, false));
    forall l: Launch | l.version == version
      ensures Uninterrupted(run[4].disk, l).ok && Uninterrupted(run[4].disk, l).disk.dst == Partial
    {
      RunHeals(run[4].disk, l);
    }
  }

  /** A partial old dashboard of a process of the same number that cannot be removed is moved
      into place when the new one cannot be. */
  lemma UnremovedLeftoverIsMovedBack(launch: Launch, version: string) returns (run: seq<State>, steps: seq<Step>)
    requires launch.dashboard
    ensures IsPath(run, steps) && run[0].pc == Idle && Kept(run[0].disk.dst, run[0].disk.version)
    ensures run[|steps|].pc == Idle && run[|steps|].disk.dst == Partial && run[|steps|].disk.version == Some(version)
  {
    var go, d := Next(Done, NOTHING), Disk(Absent, Some(version), Absent, map[], map[launch.pid := Partial]);
    run, steps := [State(d, Idle, launch, true)], [];
    run, steps := OneMore(run, steps, Begin(launch), State(d, StatDst, launch, false));
    run, steps := OneMore(run, steps, go, State(d, Open, launch, false));
    run, steps := OneMore(run, steps, go, State(d, ClearUnpacked, launch, false));
    run, steps := OneMore(run, steps, go, State(d, ClearOlds, launch, false));
    run, steps := OneMore(run, steps, Next(Fails, NOTHING.(dirs := d.olds)), State(d, WriteZip, launch, false));
    var run', steps' := MovedBack(run[|steps|]);
    run, steps := JoinPaths(run, steps, run', steps');
  }

  /** A run that dies between putting the asset in place and writing its version file. */
  lemma CutDowngrade(launch: Launch) returns (run: seq<State>, steps: seq<Step>)
    requires !launch.dashboard
    ensures IsPath(run, steps) && |steps| == 6
    ensures var d := Disk(Absent, Some("9"), Absent, map[], map[]);
            && run[0] == State(d, Idle, launch, true)
            && run[6] == State(d.(dst := Complete(launch.version)), Idle, launch, false)
    ensures forall m :: 0 <= m < |steps| ==> !Hurts(run[m], steps[m])
  {
    var go, d := Next(Done, NOTHING), Disk(Absent, Some("9"), Absent, map[], map[]);
    var copied, renamed := d.(tmp := Complete(launch.version)), d.(dst := Complete(launch.version));
    run, steps := [State(d, Idle, launch, true)], [];
    run, steps := OneMore(run, steps, Begin(launch), State(d, StatDst, launch, false));
    run, steps := OneMore(run, steps, go, State(d, Open, launch, false));
    run, steps := OneMore(run, steps, go, State(d, WriteTmp, launch, false));
    run, steps := OneMore(run, steps, go, State(copied, RenameTmp, launch, false));
    run, steps := OneMore(run, steps, go, State(renamed, Drop(true), launch, false));
    run, steps := OneMore(run, steps, Next(Dies, NOTHING), State(renamed, Idle, launch, false));
  }

  /** After a downgrade that is cut short, the next upgrade may be taken for an old one. */
  lemma DowngradeHidesAnUpgrade() returns (run: seq<State>, steps: seq<Step>)
    ensures IsPath(run, steps) && run[0].pc == Idle && |steps| == 6 && run[6].pc == Idle
    ensures forall m :: 0 <= m < |steps| ==> !Hurts(run[m], steps[m])
    ensures run[6].disk.dst == Complete("7")
    ensures forall launch: Launch :: launch.version == "8" ==>
              Uninterrupted(run[6].disk, launch).disk.dst == Complete("7")
  {
    var launch := Launch("7", false, "", true, "1");
    run, steps := CutDowngrade(launch);
    NumberOfDigit("9", 9);
    NumberOfDigit("8", 8);
    forall l: Launch | l.version == "8" ensures Uninterrupted(run[6].disk, l).disk.dst == Complete("7") {
      RunHeals(run[6].disk, l);
    }
  }

  lemma NumberOfDigit(s: string, n: nat)
    requires |s| == 1 && IsDigit(s[0]) && n == (s[0] - '0') as nat
    ensures Number(s) == Some(n)
  {
    assert s[..|s| - 1] == "";
    assert Digits(s) == Some(n);
  }
}
