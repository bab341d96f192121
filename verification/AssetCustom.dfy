/** The file that the user has imported: its version file reads "Custom". */
module AssetCustom {
  import opened AssetExtract
  import opened AssetOrder
  import opened Common

  predicate UsersOwn(d: Disk) {
    d.dst != Absent && d.version == Some("Custom")
  }

  /** The extraction has not gone beyond looking at what there is. */
  predicate Untouched(s: State, d: Disk) {
    s.disk == d && (s.pc == Idle || s.pc == StatDst || s.pc == ReadVersion)
  }

  /** A file that is there cannot be looked at, or its version file cannot be read. */
  predicate Misread(s: State, e: Step) {
    e.Next? && e.end == Fails && (s.pc == StatDst || s.pc == ReadVersion)
  }

  ghost predicate NoneMisread(run: seq<State>, steps: seq<Step>) {
    IsPath(run, steps) && forall m :: 0 <= m < |steps| ==> !Misread(run[m], steps[m])
  }

  lemma StepLeavesUsersOwn(s: State, e: Step, d: Disk)
    requires UsersOwn(d) && Untouched(s, d) && Enabled(s, e)
    ensures Untouched(Apply(s, e), d) <==> !Misread(s, e)
    ensures Misread(s, e) ==> Apply(s, e).pc == Open || (Apply(s, e).pc == RemoveDst && s.pc == ReadVersion)
    ensures Misread(s, e) ==> Apply(s, e).disk == d && Apply(s, e).launch == s.launch
  {
  }

  /** The user's file and everything beside it stay as they are through any number of runs of any
      bundles, numeric or not, cut short anywhere, in which nothing is misread. */
  lemma {:induction false} UsersOwnIsKept(run: seq<State>, steps: seq<Step>, k: nat)
    requires NoneMisread(run, steps) && k < |run|
    requires UsersOwn(run[0].disk) && Untouched(run[0], run[0].disk)
    ensures Untouched(run[k], run[0].disk)
  {
    if k > 0 {
      UsersOwnIsKept(run, steps, k - 1);
      StepLeavesUsersOwn(run[k - 1], steps[k - 1], run[0].disk);
    }
  }

  /** With nothing misread any more, something else may come to stand in the place of c. */
  ghost predicate CanReplace(s: State, c: Content) {
    exists run: seq<State>, steps: seq<Step> :: NoneMisread(run, steps) && run[0] == s && run[|steps|].disk.dst != c
  }

  lemma MisreadEnds(s: State, e: Step, d: Disk) returns (run: seq<State>, steps: seq<Step>)
    requires UsersOwn(d) && Untouched(s, d) && Enabled(s, e) && Misread(s, e)
    ensures PlainPath(run, steps) && run[0] == Apply(s, e)
    ensures run[|steps|].disk.dst == if s.pc == StatDst then Complete(s.launch.version) else Absent
  {
    StepLeavesUsersOwn(s, e, d);
    var t := Apply(s, e);
    if t.pc == Open {
      run, steps := ExtractionCutShort(t);
    } else {
      run, steps := [t], [];
      run, steps := PlainMore(run, steps, Next(Done, NOTHING), t.(disk := t.disk.(dst := Absent), pc := Open));
    }
  }

  /** Misreading it is exactly what may replace the user's file: the code takes every error of the
      two looks for a file that is missing. */
  lemma ReplacesIffMisread(s: State, e: Step, d: Disk)
    requires UsersOwn(d) && Untouched(s, d) && Enabled(s, e) && d.dst != Complete(s.launch.version)
    ensures CanReplace(Apply(s, e), d.dst) <==> Misread(s, e)
  {
    StepLeavesUsersOwn(s, e, d);
    var t := Apply(s, e);
    if Misread(s, e) {
      var run, steps := MisreadEnds(s, e, d);
      assert NoneMisread(run, steps) && run[0] == t && run[|steps|].disk.dst != d.dst;
    } else if CanReplace(t, d.dst) {
      var run: seq<State>, steps: seq<Step> :| NoneMisread(run, steps) && run[0] == t && run[|steps|].disk.dst != d.dst;
      UsersOwnIsKept(run, steps, |steps|);
    }
  }

  /** A run left alone keeps the user's file, whatever the version of the bundle. */
  lemma RunKeepsUsersOwn(d: Disk, launch: Launch)
    requires UsersOwn(d)
    ensures Uninterrupted(d, launch).disk == d && Uninterrupted(d, launch).ok
  {
    RunHeals(d, launch);
  }
}
