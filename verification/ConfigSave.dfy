/**
 Temp file names of `cbsd-rs/cbc/src/config.rs`: `<name>.<pid>.<n>.tmp`.
 */
module TempNames {
  function Digit(d: nat): char
    requires d < 10
  {
    "0123456789"[d]
  }

  function Decimal(n: nat): (s: string)
    ensures s != [] && '.' !in s
  {
    if n < 10 then [Digit(n)] else Decimal(n / 10) + [Digit(n % 10)]
  }

  function TempName(name: string, pid: nat, n: nat): string {
    name + "." + Decimal(pid) + "." + Decimal(n) + ".tmp"
  }

  lemma DigitInjective(a: nat, b: nat)
    requires a < 10 && b < 10 && Digit(a) == Digit(b)
    ensures a == b
  {
  }

  lemma {:induction false} DecimalInjective(a: nat, b: nat)
    requires Decimal(a) == Decimal(b)
    ensures a == b
  {
    var s, t := Decimal(a), Decimal(b);
    assert s[|s| - 1] == Digit(a % 10) && t[|t| - 1] == Digit(b % 10);
    DigitInjective(a % 10, b % 10);
    if a >= 10 && b >= 10 {
      assert s[..|s| - 1] == Decimal(a / 10) && t[..|t| - 1] == Decimal(b / 10);
      DecimalInjective(a / 10, b / 10);
    } else {
      assert |s| == |t|;
    }
  }

  /** Dot-free heads before a dot are determined by the whole. */
  lemma CutAtFirstDot(a: string, x: string, b: string, y: string)
    requires '.' !in a && '.' !in b && a + "." + x == b + "." + y
    ensures a == b && x == y
  {
    DotIndex(a, x);
    DotIndex(b, y);
    assert (a + "." + x)[..|a|] == a && (b + "." + y)[..|b|] == b;
    assert (a + "." + x)[|a| + 1..] == x && (b + "." + y)[|b| + 1..] == y;
  }

  function FirstDot(s: string): (k: nat)
    ensures k <= |s|
  {
    if s == [] || s[0] == '.' then 0 else 1 + FirstDot(s[1..])
  }

  lemma {:induction false} DotIndex(a: string, x: string)
    requires '.' !in a
    ensures FirstDot(a + "." + x) == |a|
  {
    if a == [] {
    } else {
      DotIndex(a[1..], x);
      assert (a + "." + x)[1..] == a[1..] + "." + x;
    }
  }

  /** The temp file is next to the target: its name goes on where the target's ends, and ends in `.tmp`. */
  lemma TempNameShape(name: string, pid: nat, n: nat)
    ensures var t := TempName(name, pid, n);
      name + "." <= t && |t| >= |name| + 4 && t[|t| - 4..] == ".tmp"
  {
  }

  /** What is behind the target's name. */
  function Rest(pid: nat, n: nat): string {
    Decimal(pid) + "." + (Decimal(n) + "." + "tmp")
  }

  lemma TempNameIsRest(name: string, pid: nat, n: nat)
    ensures TempName(name, pid, n) == (name + ".") + Rest(pid, n)
  {
  }

  lemma RestIsUnique(pid: nat, n: nat, pid': nat, n': nat)
    requires Rest(pid, n) == Rest(pid', n')
    ensures pid == pid' && n == n'
  {
    CutAtFirstDot(Decimal(pid), Decimal(n) + "." + "tmp", Decimal(pid'), Decimal(n') + "." + "tmp");
    CutAtFirstDot(Decimal(n), "tmp", Decimal(n'), "tmp");
    DecimalInjective(pid, pid');
    DecimalInjective(n, n');
  }

  lemma SameEnd(front: string, a: string, b: string)
    requires front + a == front + b
    ensures a == b
  {
    assert a == (front + a)[|front|..] && b == (front + b)[|front|..];
  }

  /** Distinct (pid, counter) pairs never share a temp name, and no temp name is the target's. */
  lemma TempNamesNeverCollide(name: string, pid: nat, n: nat, pid': nat, n': nat)
    ensures TempName(name, pid, n) == TempName(name, pid', n') ==> pid == pid' && n == n'
    ensures TempName(name, pid, n) != name
  {
    TempNameIsRest(name, pid, n);
    TempNameIsRest(name, pid', n');
    if TempName(name, pid, n) == TempName(name, pid', n') {
      SameEnd(name + ".", Rest(pid, n), Rest(pid', n'));
      RestIsUnique(pid, n, pid', n');
    }
  }
}

/**
 `Config::save` as concurrent steps on a file system: create the temp file exclusively,
 write it piece by piece, rename it over the target, remove it on failure. Any number of
 savers of one target interleave with readers of it; a saver that takes no further step has
 crashed.
 */
module ConfigSave {
  import opened Wrappers
  import TempNames

  type Bytes = seq<int>

  /** Permission bits; the file is opened with mode 0600, less what the umask takes away. */
  type Mode = bv9
  const PRIVATE: Mode := 0x180
  const GROUP_AND_OTHERS: Mode := 0x3F

  function CreateMode(umask: Mode): (m: Mode)
    ensures m & GROUP_AND_OTHERS == 0
    ensures umask & PRIVATE == 0 ==> m == PRIVATE
  {
    PRIVATE & !umask
  }

  datatype Inode = Inode(data: Bytes, mode: Mode)

  /** Directory entries, and file contents by inode number. */
  datatype Fs = Fs(names: map<string, nat>, inodes: map<nat, Inode>)

  datatype Phase =
    | Fresh
    | Writing(inode: nat, written: nat)
    | Closed(inode: nat)
    | Failed(inode: nat)
    | Done(ok: bool)

  datatype Saver = Saver(pid: nat, n: nat, temp: string, content: Bytes, umask: Mode, phase: Phase)

  /** A reader of the target: the file it opened and what it has read so far. */
  datatype Reader = Reader(inode: nat, got: Bytes)

  /** `sealed` are the files the target ever named: nothing may change them any more. */
  datatype System = System(
    fs: Fs, target: string, initial: Option<Inode>, savers: map<nat, Saver>, readers: map<nat, Reader>, sealed: set<nat>)

  datatype Step =
    | Begin(saver: nat, pid: nat, n: nat, content: Bytes, umask: Mode)
    | Create(saver: nat, inode: nat, fault: bool)
    | Write(saver: nat, upTo: nat)
    | WriteFails(saver: nat)
    | Close(saver: nat)
    | Rename(saver: nat, fault: bool)
    | Remove(saver: nat, fault: bool)
    | Open(reader: nat)
    | ReadMore(reader: nat, upTo: nat)

  predicate Active(p: Phase) {
    p.Writing? || p.Closed? || p.Failed?
  }

  predicate Enabled(s: System, step: Step) {
    match step
    case Begin(i, _, _, _, _) => i !in s.savers
    case Create(i, inode, _) => i in s.savers && s.savers[i].phase.Fresh? && inode !in s.fs.inodes
    case Write(i, upTo) =>
      i in s.savers && s.savers[i].phase.Writing? && s.savers[i].phase.written <= upTo <= |s.savers[i].content|
    case WriteFails(i) => i in s.savers && s.savers[i].phase.Writing?
    case Close(i) => i in s.savers && s.savers[i].phase.Writing? && s.savers[i].phase.written == |s.savers[i].content|
    case Rename(i, _) => i in s.savers && s.savers[i].phase.Closed?
    case Remove(i, _) => i in s.savers && s.savers[i].phase.Failed?
    case Open(r) => r !in s.readers && s.target in s.fs.names
    case ReadMore(r, upTo) =>
      r in s.readers && s.readers[r].inode in s.fs.inodes && |s.readers[r].got| <= upTo <= |s.fs.inodes[s.readers[r].inode].data|
  }

  function Move(s: System, i: nat, phase: Phase): System
    requires i in s.savers
  {
    s.(savers := s.savers[i := s.savers[i].(phase := phase)])
  }

  function Apply(s: System, step: Step): System
    requires Enabled(s, step)
  {
    match step
    case Begin(i, pid, n, content, umask) =>
      s.(savers := s.savers[i := Saver(pid, n, TempNames.TempName(s.target, pid, n), content, umask, Fresh)])
    case Create(i, inode, fault) =>
      var saver := s.savers[i];
      // an existing file of that name makes the exclusive create fail; nothing is cleaned up then
      if fault || saver.temp in s.fs.names then Move(s, i, Done(false))
      else
        var fs := Fs(s.fs.names[saver.temp := inode], s.fs.inodes[inode := Inode([], CreateMode(saver.umask))]);
        Move(s.(fs := fs), i, Writing(inode, 0))
    case Write(i, upTo) =>
      var inode := s.savers[i].phase.inode;
      if inode !in s.fs.inodes then s
      else
        var file := Inode(s.savers[i].content[..upTo], s.fs.inodes[inode].mode);
        Move(s.(fs := s.fs.(inodes := s.fs.inodes[inode := file])), i, Writing(inode, upTo))
    case WriteFails(i) => Move(s, i, Failed(s.savers[i].phase.inode))
    case Close(i) => Move(s, i, Closed(s.savers[i].phase.inode))
    case Rename(i, fault) =>
      var temp := s.savers[i].temp;
      if fault || temp !in s.fs.names then Move(s, i, Failed(s.savers[i].phase.inode))
      else
        var moved := s.fs.names[temp];
        Move(s.(fs := s.fs.(names := (s.fs.names - {temp})[s.target := moved]), sealed := s.sealed + {moved}), i, Done(true))
    case Remove(i, fault) =>
      if fault then Move(s, i, Done(false))
      else Move(s.(fs := s.fs.(names := s.fs.names - {s.savers[i].temp})), i, Done(false))
    case Open(r) => s.(readers := s.readers[r := Reader(s.fs.names[s.target], [])])
    case ReadMore(r, upTo) =>
      var reader := s.readers[r];
      s.(readers := s.readers[r := reader.(got := s.fs.inodes[reader.inode].data[..upTo])])
  }

  predicate Legal(s: System, steps: seq<Step>)
    decreases |steps|
  {
    steps == [] || (Enabled(s, steps[0]) && Legal(Apply(s, steps[0]), steps[1..]))
  }

  function RunAll(s: System, steps: seq<Step>): System
    requires Legal(s, steps)
    decreases |steps|
  {
    if steps == [] then s else RunAll(Apply(s, steps[0]), steps[1..])
  }

  /** Before anyone saves: an arbitrary directory, whose target, if there, is the initial file. */
  predicate Initial(s: System) {
    && s.savers == map[] && s.readers == map[]
    && (forall n :: n in s.fs.names ==> s.fs.names[n] in s.fs.inodes)
    && (if s.target in s.fs.names then
          s.initial == Some(s.fs.inodes[s.fs.names[s.target]]) && s.sealed == {s.fs.names[s.target]}
        else s.initial.None? && s.sealed == {})
  }

  // --- Safety ---

  /** The initial file, or one save's whole content in a file private to the owner. */
  ghost predicate Complete(s: System, file: Inode) {
    s.initial == Some(file) || exists i :: i in s.savers && IsWholeSave(s.savers[i], file)
  }

  predicate IsWholeSave(saver: Saver, file: Inode) {
    file.data == saver.content && file.mode == CreateMode(saver.umask)
  }

  /** A saver between create and rename or removal owns its temp entry, and nothing else refers to the file. */
  ghost predicate Owns(fs: Fs, sealed: set<nat>, saver: Saver)
    requires Active(saver.phase)
  {
    var inode := saver.phase.inode;
    && saver.temp in fs.names && fs.names[saver.temp] == inode
    && inode in fs.inodes && inode !in sealed && fs.inodes[inode].mode == CreateMode(saver.umask)
    && (saver.phase.Writing? ==>
          saver.phase.written <= |saver.content| && fs.inodes[inode].data == saver.content[..saver.phase.written])
    && (saver.phase.Closed? ==> fs.inodes[inode].data == saver.content)
    && (forall n :: n in fs.names && n != saver.temp ==> fs.names[n] != inode)
  }

  predicate NamesOk(fs: Fs) {
    forall n :: n in fs.names ==> fs.names[n] in fs.inodes
  }

  ghost predicate SaversOk(s: System) {
    && (forall i :: i in s.savers ==> s.savers[i].temp != s.target)
    && (forall i :: i in s.savers && Active(s.savers[i].phase) ==> Owns(s.fs, s.sealed, s.savers[i]))
    && (forall i, j :: i in s.savers && j in s.savers && i != j && Active(s.savers[i].phase) && Active(s.savers[j].phase)
          ==> s.savers[i].temp != s.savers[j].temp)
  }

  ghost predicate SealedOk(s: System) {
    && (forall x :: x in s.sealed ==> x in s.fs.inodes && Complete(s, s.fs.inodes[x]))
    && (s.target in s.fs.names ==> s.fs.names[s.target] in s.sealed)
    && (forall r :: r in s.readers ==> ReaderOk(s, s.readers[r]))
  }

  /** What was read is the beginning of a file the target named. */
  predicate ReaderOk(s: System, r: Reader) {
    r.inode in s.sealed && r.inode in s.fs.inodes && r.got <= s.fs.inodes[r.inode].data
  }

  ghost predicate Inv(s: System) {
    NamesOk(s.fs) && SaversOk(s) && SealedOk(s)
  }

  /** Sealed files never change, whatever the step. */
  lemma SealedNeverChanges(s: System, step: Step, x: nat)
    requires Inv(s) && Enabled(s, step) && x in s.sealed
    ensures var s' := Apply(s, step);
      x in s'.sealed && x in s.fs.inodes && x in s'.fs.inodes && s'.fs.inodes[x] == s.fs.inodes[x]
  {
    if step.Write? { assert Owns(s.fs, s.sealed, s.savers[step.saver]); }
  }

  lemma CompleteStays(s: System, step: Step, file: Inode)
    requires Enabled(s, step) && Complete(s, file)
    ensures Complete(Apply(s, step), file)
  {
    if s.initial != Some(file) {
      var i :| i in s.savers && IsWholeSave(s.savers[i], file);
      assert IsWholeSave(Apply(s, step).savers[i], file);
    }
  }

  lemma StepKeepsSealedOk(s: System, step: Step)
    requires Inv(s) && Enabled(s, step)
    ensures SealedOk(Apply(s, step))
  {
    var s' := Apply(s, step);
    forall x | x in s'.sealed
      ensures x in s'.fs.inodes && Complete(s', s'.fs.inodes[x])
    {
      if x in s.sealed {
        SealedNeverChanges(s, step, x);
        CompleteStays(s, step, s.fs.inodes[x]);
      } else {
        assert Owns(s.fs, s.sealed, s.savers[step.saver]);
        assert IsWholeSave(s.savers[step.saver], s.fs.inodes[x]);
        CompleteStays(s, step, s.fs.inodes[x]);
      }
    }
    forall r | r in s'.readers
      ensures ReaderOk(s', s'.readers[r])
    {
      SealedNeverChanges(s, step, s'.readers[r].inode);
    }
  }

  // How the four operations that change the directory or a file treat a saver they are not about.

  lemma CreateSparesOthers(fs: Fs, sealed: set<nat>, saver: Saver, temp: string, inode: nat, file: Inode)
    requires Active(saver.phase) && Owns(fs, sealed, saver) && temp !in fs.names && inode !in fs.inodes
    ensures Owns(Fs(fs.names[temp := inode], fs.inodes[inode := file]), sealed, saver)
  {
  }

  lemma WriteSparesOthers(fs: Fs, sealed: set<nat>, saver: Saver, inode: nat, file: Inode)
    requires Active(saver.phase) && Owns(fs, sealed, saver) && saver.phase.inode != inode
    ensures Owns(fs.(inodes := fs.inodes[inode := file]), sealed, saver)
  {
  }

  lemma RenameSparesOthers(fs: Fs, sealed: set<nat>, saver: Saver, temp: string, target: string)
    requires Active(saver.phase) && Owns(fs, sealed, saver)
    requires temp in fs.names && saver.temp != temp && saver.temp != target
    ensures Owns(fs.(names := (fs.names - {temp})[target := fs.names[temp]]), sealed + {fs.names[temp]}, saver)
  {
  }

  lemma RemoveSparesOthers(fs: Fs, sealed: set<nat>, saver: Saver, temp: string)
    requires Active(saver.phase) && Owns(fs, sealed, saver) && saver.temp != temp
    ensures Owns(fs.(names := fs.names - {temp}), sealed, saver)
  {
  }

  /** The saver that takes the step still owns its file, if it is not done. */
  lemma MoverOwns(s: System, step: Step, i: nat)
    requires Inv(s) && Enabled(s, step) && i in Apply(s, step).savers
    requires step.Create? || step.Write? || step.WriteFails? || step.Close? || step.Rename? || step.Remove?
    requires step.saver == i && Active(Apply(s, step).savers[i].phase)
    ensures Owns(Apply(s, step).fs, Apply(s, step).sealed, Apply(s, step).savers[i])
  {
    if !step.Create? { assert Owns(s.fs, s.sealed, s.savers[i]); }
  }

  lemma OthersOwn(s: System, step: Step, i: nat)
    requires Inv(s) && Enabled(s, step) && i in s.savers && Active(s.savers[i].phase)
    requires (step.Create? || step.Write? || step.WriteFails? || step.Close? || step.Rename? || step.Remove?) ==> step.saver != i
    ensures var s' := Apply(s, step);
      i in s'.savers && s'.savers[i] == s.savers[i] && Owns(s'.fs, s'.sealed, s.savers[i])
  {
    var saver := s.savers[i];
    assert Owns(s.fs, s.sealed, saver);
    match step
    case Create(j, inode, _) =>
      if s.savers[j].temp !in s.fs.names {
        CreateSparesOthers(s.fs, s.sealed, saver, s.savers[j].temp, inode, Inode([], CreateMode(s.savers[j].umask)));
      }
    case Write(j, upTo) =>
      var inode := s.savers[j].phase.inode;
      assert Owns(s.fs, s.sealed, s.savers[j]);
      WriteSparesOthers(s.fs, s.sealed, saver, inode, Inode(s.savers[j].content[..upTo], s.fs.inodes[inode].mode));
    case Rename(j, _) =>
      assert Owns(s.fs, s.sealed, s.savers[j]);
      RenameSparesOthers(s.fs, s.sealed, saver, s.savers[j].temp, s.target);
    case Remove(j, _) =>
      assert Owns(s.fs, s.sealed, s.savers[j]);
      RemoveSparesOthers(s.fs, s.sealed, saver, s.savers[j].temp);
    case _ =>
  }

  lemma TempsStayOffTheTarget(s: System, step: Step)
    requires Inv(s) && Enabled(s, step)
    ensures var s' := Apply(s, step); forall i :: i in s'.savers ==> s'.savers[i].temp != s'.target
  {
    if step.Begin? { TempNames.TempNamesNeverCollide(s.target, step.pid, step.n, 0, 0); }
  }

  lemma StepKeepsNamesOk(s: System, step: Step)
    requires Inv(s) && Enabled(s, step)
    ensures NamesOk(Apply(s, step).fs)
  {
    if step.Write? { assert Owns(s.fs, s.sealed, s.savers[step.saver]); }
  }

  lemma StepKeepsSaversOk(s: System, step: Step)
    requires Inv(s) && Enabled(s, step)
    ensures SaversOk(Apply(s, step))
  {
    var s' := Apply(s, step);
    TempsStayOffTheTarget(s, step);
    forall i | i in s'.savers && Active(s'.savers[i].phase)
      ensures Owns(s'.fs, s'.sealed, s'.savers[i])
    {
      if (step.Create? || step.Write? || step.WriteFails? || step.Close? || step.Rename? || step.Remove?) && step.saver == i {
        MoverOwns(s, step, i);
      } else {
        OthersOwn(s, step, i);
      }
    }
    ActiveTempsStayDistinct(s, step);
  }

  lemma ActiveTempsStayDistinct(s: System, step: Step)
    requires Inv(s) && Enabled(s, step)
    ensures var s' := Apply(s, step);
      forall i, j :: i in s'.savers && j in s'.savers && i != j && Active(s'.savers[i].phase) && Active(s'.savers[j].phase)
        ==> s'.savers[i].temp != s'.savers[j].temp
  {
    forall i | i in s.savers && Active(s.savers[i].phase)
      ensures s.savers[i].temp in s.fs.names
    {
      assert Owns(s.fs, s.sealed, s.savers[i]);
    }
  }

  lemma StepKeepsInv(s: System, step: Step)
    requires Inv(s) && Enabled(s, step)
    ensures Inv(Apply(s, step))
  {
    StepKeepsSealedOk(s, step);
    StepKeepsSaversOk(s, step);
    StepKeepsNamesOk(s, step);
  }

  lemma {:induction false} EveryInterleavingKeepsInv(s: System, steps: seq<Step>)
    requires Inv(s) && Legal(s, steps)
    ensures Inv(RunAll(s, steps))
    decreases |steps|
  {
    if steps == [] {
    } else {
      StepKeepsInv(s, steps[0]);
      EveryInterleavingKeepsInv(Apply(s, steps[0]), steps[1..]);
    }
  }

  /**
   Whatever savers, readers, faults and crashes interleave, and whether or not temp names
   are unique: the target names the initial file or one save's whole content, private to the
   owner; and what a reader has read is a prefix of such a file that no longer changes.
   */
  lemma TargetIsAlwaysComplete(s: System, steps: seq<Step>)
    requires Initial(s) && Legal(s, steps)
    ensures var end := RunAll(s, steps);
      && (end.target in end.fs.names ==>
            end.fs.names[end.target] in end.fs.inodes && Complete(end, end.fs.inodes[end.fs.names[end.target]]))
      && (forall r :: r in end.readers ==>
            ReaderOk(end, end.readers[r]) && Complete(end, end.fs.inodes[end.readers[r].inode]))
  {
    assert Inv(s);
    EveryInterleavingKeepsInv(s, steps);
  }

  // --- Whose content it is ---

  function Lookup(fs: Fs, name: string): Option<Inode> {
    if name in fs.names && fs.names[name] in fs.inodes then Some(fs.inodes[fs.names[name]]) else None
  }

  /** The saver whose rename was the last to succeed. */
  function LastSaved(steps: seq<Step>, last: Option<nat>): Option<nat>
    decreases |steps|
  {
    if steps == [] then last
    else LastSaved(steps[1..], if steps[0].Rename? && !steps[0].fault then Some(steps[0].saver) else last)
  }

  /** The target is the initial file, or the whole content of the saver given. */
  predicate TargetIs(s: System, last: Option<nat>) {
    match last
    case None => Lookup(s.fs, s.target) == s.initial
    case Some(i) =>
      i in s.savers && Lookup(s.fs, s.target).Some? && IsWholeSave(s.savers[i], Lookup(s.fs, s.target).value)
  }

  lemma RenamePublishes(s: System, i: nat)
    requires Inv(s) && Enabled(s, Rename(i, false))
    ensures TargetIs(Apply(s, Rename(i, false)), Some(i))
  {
    assert Owns(s.fs, s.sealed, s.savers[i]);
  }

  /** No other step changes what the target is. */
  lemma OthersKeepTarget(s: System, step: Step)
    requires Inv(s) && Enabled(s, step) && !(step.Rename? && !step.fault)
    ensures Lookup(Apply(s, step).fs, s.target) == Lookup(s.fs, s.target)
  {
    NamesKeepTarget(s, step);
    if s.target in s.fs.names {
      SealedNeverChanges(s, step, s.fs.names[s.target]);
    }
  }

  lemma NamesKeepTarget(s: System, step: Step)
    requires (forall i :: i in s.savers ==> s.savers[i].temp != s.target) && Enabled(s, step) && !(step.Rename? && !step.fault)
    ensures var names := Apply(s, step).fs.names;
      if s.target in s.fs.names then s.target in names && names[s.target] == s.fs.names[s.target] else s.target !in names
  {
  }

  lemma WholeSaveStays(s: System, step: Step, i: nat, file: Inode)
    requires Enabled(s, step) && i in s.savers && IsWholeSave(s.savers[i], file)
    ensures i in Apply(s, step).savers && IsWholeSave(Apply(s, step).savers[i], file)
  {
  }

  lemma StepKeepsTarget(s: System, step: Step, last: Option<nat>)
    requires Inv(s) && Enabled(s, step) && TargetIs(s, last)
    ensures TargetIs(Apply(s, step), if step.Rename? && !step.fault then Some(step.saver) else last)
    ensures Apply(s, step).target == s.target && Apply(s, step).initial == s.initial
  {
    if step.Rename? && !step.fault {
      RenamePublishes(s, step.saver);
    } else {
      OthersKeepTarget(s, step);
      if last.Some? {
        WholeSaveStays(s, step, last.value, Lookup(s.fs, s.target).value);
      }
    }
  }

  lemma {:induction false} LastSavedIsTarget(s: System, steps: seq<Step>, last: Option<nat>)
    requires Inv(s) && Legal(s, steps) && TargetIs(s, last)
    ensures TargetIs(RunAll(s, steps), LastSaved(steps, last))
    decreases |steps|
  {
    if steps == [] {
    } else {
      StepKeepsTarget(s, steps[0], last);
      StepKeepsInv(s, steps[0]);
      var next := if steps[0].Rename? && !steps[0].fault then Some(steps[0].saver) else last;
      LastSavedIsTarget(Apply(s, steps[0]), steps[1..], next);
    }
  }

  /** In every run the target is exactly what the last successful save wrote, or the initial file if there was none. */
  lemma LastSaveWins(s: System, steps: seq<Step>)
    requires Initial(s) && Legal(s, steps)
    ensures TargetIs(RunAll(s, steps), LastSaved(steps, None))
  {
    assert Inv(s);
    LastSavedIsTarget(s, steps, None);
  }

  // --- Leftovers, with unique temp names ---

  /** A new saver's (pid, counter) pair is its own. */
  predicate UniquePair(s: System, step: Step) {
    step.Begin? ==> forall i :: i in s.savers ==> s.savers[i].pid != step.pid || s.savers[i].n != step.n
  }

  predicate UniquePairs(s: System, steps: seq<Step>)
    requires Legal(s, steps)
    decreases |steps|
  {
    steps == [] || (UniquePair(s, steps[0]) && UniquePairs(Apply(s, steps[0]), steps[1..]))
  }

  /** The savers to blame for a leftover: those that began with a file of their temp name there, and those whose removal failed. */
  function Blame(s: System, step: Step, blamed: set<nat>): set<nat> {
    match step
    case Begin(i, pid, n, _, _) => if TempNames.TempName(s.target, pid, n) in s.fs.names then blamed + {i} else blamed
    case Remove(i, fault) => if fault then blamed + {i} else blamed
    case _ => blamed
  }

  function Blamed(s: System, steps: seq<Step>, blamed: set<nat>): set<nat>
    requires Legal(s, steps)
    decreases |steps|
  {
    if steps == [] then blamed else Blamed(Apply(s, steps[0]), steps[1..], Blame(s, steps[0], blamed))
  }

  ghost predicate NamesAreOwn(s: System) {
    && (forall i :: i in s.savers ==> s.savers[i].temp == TempNames.TempName(s.target, s.savers[i].pid, s.savers[i].n))
    && (forall i, j :: i in s.savers && j in s.savers && i != j ==> s.savers[i].temp != s.savers[j].temp)
  }

  /** A temp entry exists while its saver is between create and finish, and for good if the saver is to blame. */
  predicate EntryOk(s: System, i: nat, blamed: set<nat>)
    requires i in s.savers
  {
    if i in blamed then s.savers[i].temp in s.fs.names && !Active(s.savers[i].phase)
    else s.savers[i].temp in s.fs.names ==> Active(s.savers[i].phase)
  }

  ghost predicate Tidy(s: System, blamed: set<nat>) {
    && NamesAreOwn(s) && blamed <= s.savers.Keys
    && (forall i :: i in s.savers ==> EntryOk(s, i, blamed))
  }

  lemma BeginIsTidy(s: System, step: Step, blamed: set<nat>)
    requires Tidy(s, blamed) && step.Begin? && Enabled(s, step) && UniquePair(s, step)
    ensures Tidy(Apply(s, step), Blame(s, step, blamed))
  {
    forall i | i in s.savers
      ensures s.savers[i].temp != TempNames.TempName(s.target, step.pid, step.n)
    {
      TempNames.TempNamesNeverCollide(s.target, step.pid, step.n, s.savers[i].pid, s.savers[i].n);
    }
    forall i | i in s.savers
      ensures EntryOk(Apply(s, step), i, Blame(s, step, blamed))
    {
      assert EntryOk(s, i, blamed);
    }
  }

  /** Only the saver that takes the step changes phase. */
  lemma StepTouchesOneSaver(s: System, step: Step, i: nat)
    requires Enabled(s, step) && !step.Begin? && i in s.savers
    ensures var s' := Apply(s, step);
      && s'.savers.Keys == s.savers.Keys && s'.savers[i].(phase := s.savers[i].phase) == s.savers[i]
      && (s'.savers[i] == s.savers[i] || (!step.Open? && !step.ReadMore? && step.saver == i))
  {
  }

  /** No step but the saver's own changes whether its temp entry exists. */
  lemma OthersEntriesStay(s: System, step: Step, i: nat)
    requires NamesAreOwn(s) && Enabled(s, step) && !step.Begin? && i in s.savers && s.savers[i].temp != s.target
    requires step.Open? || step.ReadMore? || step.saver != i
    ensures s.savers[i].temp in Apply(s, step).fs.names <==> s.savers[i].temp in s.fs.names
  {
  }

  lemma OwnStepKeepsEntry(s: System, step: Step, i: nat, blamed: set<nat>)
    requires Enabled(s, step) && !step.Begin? && !step.Open? && !step.ReadMore? && step.saver == i
    requires EntryOk(s, i, blamed) && s.savers[i].temp != s.target
    requires Active(s.savers[i].phase) ==> s.savers[i].temp in s.fs.names
    ensures i in Apply(s, step).savers && EntryOk(Apply(s, step), i, Blame(s, step, blamed))
  {
  }

  lemma StepKeepsEntry(s: System, step: Step, i: nat, blamed: set<nat>)
    requires Inv(s) && Tidy(s, blamed) && Enabled(s, step) && !step.Begin? && i in s.savers
    ensures i in Apply(s, step).savers && EntryOk(Apply(s, step), i, Blame(s, step, blamed))
  {
    assert EntryOk(s, i, blamed);
    if Active(s.savers[i].phase) {
      assert Owns(s.fs, s.sealed, s.savers[i]);
    }
    if step.Open? || step.ReadMore? || step.saver != i {
      StepTouchesOneSaver(s, step, i);
      OthersEntriesStay(s, step, i);
    } else {
      OwnStepKeepsEntry(s, step, i, blamed);
    }
  }

  lemma StepKeepsNames(s: System, step: Step)
    requires NamesAreOwn(s) && Enabled(s, step) && !step.Begin?
    ensures NamesAreOwn(Apply(s, step)) && Apply(s, step).savers.Keys == s.savers.Keys
  {
    forall i | i in s.savers
      ensures var s' := Apply(s, step);
        s'.savers.Keys == s.savers.Keys && s'.savers[i].(phase := s.savers[i].phase) == s.savers[i]
    {
      StepTouchesOneSaver(s, step, i);
    }
  }

  lemma StepIsTidy(s: System, step: Step, blamed: set<nat>)
    requires Inv(s) && Tidy(s, blamed) && Enabled(s, step) && UniquePair(s, step)
    ensures Tidy(Apply(s, step), Blame(s, step, blamed))
  {
    if step.Begin? {
      BeginIsTidy(s, step, blamed);
    } else {
      StepKeepsNames(s, step);
      forall i | i in s.savers
        ensures EntryOk(Apply(s, step), i, Blame(s, step, blamed))
      {
        StepKeepsEntry(s, step, i, blamed);
      }
    }
  }

  lemma {:induction false} EveryRunIsTidy(s: System, steps: seq<Step>, blamed: set<nat>)
    requires Inv(s) && Tidy(s, blamed) && Legal(s, steps) && UniquePairs(s, steps)
    ensures Tidy(RunAll(s, steps), Blamed(s, steps, blamed))
    decreases |steps|
  {
    if steps == [] {
    } else {
      StepKeepsInv(s, steps[0]);
      StepIsTidy(s, steps[0], blamed);
      EveryRunIsTidy(Apply(s, steps[0]), steps[1..], Blame(s, steps[0], blamed));
    }
  }

  /** The exclusive create meets a file only if that file was there when its saver began. */
  lemma CreateDoesNotCollide(s: System, steps: seq<Step>, i: nat)
    requires Initial(s) && Legal(s, steps) && UniquePairs(s, steps)
    requires i in RunAll(s, steps).savers && RunAll(s, steps).savers[i].phase.Fresh?
    ensures RunAll(s, steps).savers[i].temp in RunAll(s, steps).fs.names <==> i in Blamed(s, steps, {})
  {
    assert Inv(s) && Tidy(s, {});
    EveryRunIsTidy(s, steps, {});
    assert EntryOk(RunAll(s, steps), i, Blamed(s, steps, {}));
  }

  /**
   With unique pairs, whatever else fails: a save that is over, failed or not, leaves a file of
   its temp name if and only if its own removal failed or the file was there when it began.
   */
  lemma NoLeftovers(s: System, steps: seq<Step>, i: nat)
    requires Initial(s) && Legal(s, steps) && UniquePairs(s, steps)
    requires i in RunAll(s, steps).savers && RunAll(s, steps).savers[i].phase.Done?
    ensures RunAll(s, steps).savers[i].temp in RunAll(s, steps).fs.names <==> i in Blamed(s, steps, {})
  {
    assert Inv(s) && Tidy(s, {});
    EveryRunIsTidy(s, steps, {});
    assert EntryOk(RunAll(s, steps), i, Blamed(s, steps, {}));
  }

  // --- One save on its own ---

  datatype SaveFault = NoFault | DirectoryFault | CreateFault | WriteFault(written: nat) | RenameFault

  class Directory {
    var names: map<string, nat>
    var inodes: map<nat, Inode>

    ghost predicate Valid()
      reads this
    {
      NamesOk(Fs(names, inodes))
    }

    /** The file a name stands for. */
    function Lookup(name: string): Option<Inode>
      reads this
    {
      if name in names && names[name] in inodes then Some(inodes[names[name]]) else None
    }

    constructor (fs: Fs)
      requires NamesOk(fs)
      ensures names == fs.names && inodes == fs.inodes && Valid()
    {
      names, inodes := fs.names, fs.inodes;
    }

    /**
     On success the target is the new content, private to the owner; on failure it is what it
     was. Either way no other name changes and the temp name is free again, unless removing it
     failed or the name was taken before the call, which leaves that file alone.
     */
    method Save(target: string, pid: nat, n: nat, content: Bytes, umask: Mode, inode: nat, fault: SaveFault, removeFault: bool)
      returns (ok: bool)
      requires Valid() && inode !in inodes && (fault.WriteFault? ==> fault.written <= |content|)
      modifies this
      ensures Valid()
      ensures var temp := TempNames.TempName(target, pid, n);
        && ok == (fault.NoFault? && temp !in old(names))
        && Lookup(target) == (if ok then Some(Inode(content, CreateMode(umask))) else old(Lookup(target)))
        && (forall name :: name != target && name != temp ==> Lookup(name) == old(Lookup(name)))
        && (temp in old(names) ==> Lookup(temp) == old(Lookup(temp)))
        && (temp !in old(names) && (ok || !removeFault) ==> temp !in names)
    {
      TempNames.TempNamesNeverCollide(target, pid, n, pid, n);
      if fault == DirectoryFault {
        return false;
      }
      var temp := TempNames.TempName(target, pid, n);
      if fault == CreateFault || temp in names {
        return false;
      }
      names := names[temp := inode];
      inodes := inodes[inode := Inode([], CreateMode(umask))];
      ok := true;
      if fault.WriteFault? {
        inodes := inodes[inode := inodes[inode].(data := content[..fault.written])];
        ok := false;
      } else {
        inodes := inodes[inode := inodes[inode].(data := content)];
      }
      if ok {
        if fault == RenameFault {
          ok := false;
        } else {
          names := (names - {temp})[target := names[temp]];
        }
      }
      if !ok && !removeFault {
        names := names - {temp};
      }
    }
  }
}
