/** Runs of the log in which the operations of a group take turns with their writes, each taking a
    consistent file system to a consistent one: the committed groups are then whole operations in
    order, and every crash leaves a consistent file system. */
module CrashRuns {
  import opened Prelude
  import opened Blocks
  import opened LogMachine
  import opened LogCrash
  import opened LogSpace
  import opened CrashFs
  import FsState
  import FS = FileSystem

  // ---------------------------------------------------------------- taking turns

  /** The updates take an intact file system to an intact one. */
  ghost predicate Keeps(sb: FsState.Sb, d: Disk, us: seq<Update>)
  {
    Intact(sb, d) ==> Intact(sb, Replay(d, us))
  }

  /** What was logged before op logged anything. */
  function Before(us: seq<Update>, op: OpId): seq<Update>
  {
    if us == [] || us[0].op == op then [] else [us[0]] + Before(us[1..], op)
  }

  /** Operations may overlap, but not their writes: whoever writes was the last to write, or writes for the
      first time. And what an operation wrote, when it ends, was right for the state it found. */
  ghost predicate InTurn(sb: FsState.Sb, s: State, e: Step)
  {
    match e
    case Write(op, _, _) =>
      op in s.issued && (s.issued[op] == [] || (s.current != [] && s.current[|s.current| - 1].op == op))
    case End(op) => op in s.issued && Keeps(sb, Replay(Committed(s), Before(s.current, op)), s.issued[op])
    case _ => true
  }

  ghost predicate InTurns(c: Config, sb: FsState.Sb, s: State, steps: seq<Step>)
    requires IsRun(c, s, steps)
    decreases steps
  {
    steps == [] || (InTurn(sb, s, steps[0]) && InTurns(c, sb, Next(c, s, steps[0]), steps[1..]))
  }

  // ---------------------------------------------------------------- the history of a run

  /** done are the writes of the operations committed so far, cut into groups; parts are the writes of
      the operations ops since. */
  datatype History = History(done: seq<seq<Update>>, cuts: seq<nat>, ops: seq<OpId>, parts: seq<seq<Update>>)

  ghost predicate PartOf(part: seq<Update>, op: OpId)
  {
    part != [] && forall u :: u in part ==> u.op == op
  }

  ghost predicate Parts(ops: seq<OpId>, parts: seq<seq<Update>>)
  {
    |ops| == |parts| && Nodup(ops) && forall i :: 0 <= i < |ops| ==> PartOf(parts[i], ops[i])
  }

  /** The state in which part i of h began. */
  ghost function Found(base: Disk, h: History, i: nat): Disk
    requires i <= |h.parts|
  {
    Replay(base, Flat(h.done + h.parts[..i]))
  }

  ghost predicate Follows(sb: FsState.Sb, s: State, h: History)
  {
    && Grouped(s.groups, h.done, h.cuts) && h.cuts[|s.groups|] == |h.done| && Serial(sb, s.base, h.done)
    && Parts(h.ops, h.parts) && s.current == Flat(h.parts)
    && forall i :: 0 <= i < |h.ops| && h.ops[i] in s.ended ==> Keeps(sb, Found(s.base, h, i), h.parts[i])
  }

  // ---------------------------------------------------------------- parts of the log

  lemma {:induction false} NoneOf(part: seq<Update>, op: OpId)
    requires forall u :: u in part ==> u.op != op
    ensures UpdatesOf(part, op) == []
  {
    if part != [] {
      NoneOf(part[..|part| - 1], op);
    }
  }

  lemma {:induction false} AllOf(part: seq<Update>, op: OpId)
    requires forall u :: u in part ==> u.op == op
    ensures UpdatesOf(part, op) == part
  {
    if part != [] {
      AllOf(part[..|part| - 1], op);
    }
  }

  lemma {:induction false} UpdatesOfConcat(a: seq<Update>, b: seq<Update>, op: OpId)
    ensures UpdatesOf(a + b, op) == UpdatesOf(a, op) + UpdatesOf(b, op)
  {
    if b == [] {
      assert a + b == a;
    } else {
      var n := |b| - 1;
      assert (a + b)[..|a + b| - 1] == a + b[..n];
      UpdatesOfConcat(a, b[..n], op);
    }
  }

  /** An operation without a part has logged nothing. */
  lemma {:induction false} NotInParts(ops: seq<OpId>, parts: seq<seq<Update>>, op: OpId)
    requires Parts(ops, parts) && op !in ops
    ensures UpdatesOf(Flat(parts), op) == []
  {
    if parts != [] {
      PartsRest(ops, parts);
      NotInParts(ops[1..], parts[1..], op);
      assert PartOf(parts[0], ops[0]);
      NoneOf(parts[0], op);
      UpdatesOfConcat(parts[0], Flat(parts[1..]), op);
    }
  }

  lemma PartsRest(ops: seq<OpId>, parts: seq<seq<Update>>)
    requires Parts(ops, parts) && parts != []
    ensures Parts(ops[1..], parts[1..]) && ops[0] !in ops[1..]
  {
    forall i | 0 <= i < |ops| - 1
      ensures PartOf(parts[1..][i], ops[1..][i])
    {
      assert PartOf(parts[i + 1], ops[i + 1]);
    }
  }

  /** What the operation of part i has logged is that part, and what was logged before it the earlier parts. */
  lemma {:induction false} PartIs(ops: seq<OpId>, parts: seq<seq<Update>>, i: nat)
    requires Parts(ops, parts) && i < |ops|
    ensures UpdatesOf(Flat(parts), ops[i]) == parts[i] && Before(Flat(parts), ops[i]) == Flat(parts[..i])
  {
    PartsRest(ops, parts);
    assert PartOf(parts[0], ops[0]);
    UpdatesOfConcat(parts[0], Flat(parts[1..]), ops[i]);
    if i == 0 {
      NotInParts(ops[1..], parts[1..], ops[0]);
      AllOf(parts[0], ops[0]);
      assert parts[0][0] in parts[0];
    } else {
      PartIs(ops[1..], parts[1..], i - 1);
      NoneOf(parts[0], ops[i]);
      BeforeSkips(parts[0], Flat(parts[1..]), ops[i]);
      assert parts[..i] == [parts[0]] + parts[1..][..i - 1] && parts[..i][1..] == parts[1..][..i - 1];
    }
  }

  lemma {:induction false} BeforeSkips(a: seq<Update>, b: seq<Update>, op: OpId)
    requires forall u :: u in a ==> u.op != op
    ensures Before(a + b, op) == a + Before(b, op)
  {
    if a == [] {
      assert a + b == b;
    } else {
      assert a[0] in a && (a + b)[1..] == a[1..] + b;
      BeforeSkips(a[1..], b, op);
    }
  }

  /** The last update logged is the last of the last part. */
  lemma LastPart(ops: seq<OpId>, parts: seq<seq<Update>>)
    requires Parts(ops, parts) && Flat(parts) != []
    ensures ops != [] && Flat(parts)[|Flat(parts)| - 1].op == ops[|ops| - 1]
  {
    var n := |parts| - 1;
    FlatSnoc(parts[..n], parts[n]);
    assert parts == parts[..n] + [parts[n]];
    assert PartOf(parts[n], ops[n]);
    assert parts[n][|parts[n]| - 1] in parts[n];
  }

  lemma NoParts(ops: seq<OpId>, parts: seq<seq<Update>>)
    requires Parts(ops, parts) && Flat(parts) == []
    ensures parts == []
  {
    assert parts != [] ==> PartOf(parts[0], ops[0]);
  }

  // ---------------------------------------------------------------- steps

  lemma WroteFirst(sb: FsState.Sb, s: State, h: History, u: Update, t: State) returns (h': History)
    requires Follows(sb, s, h) && u.op !in h.ops && u.op !in s.ended
    requires t.groups == s.groups && t.base == s.base && t.ended == s.ended && t.current == s.current + [u]
    ensures Follows(sb, t, h')
  {
    hide Intact, Serial, Grouped, Replay, Keeps;
    GroupedSize(s.groups, h.done, h.cuts);
    h' := h.(ops := h.ops + [u.op], parts := h.parts + [[u]]);
    FlatSnoc(h.parts, [u]);
    forall i | 0 <= i < |h'.ops|
      ensures PartOf(h'.parts[i], h'.ops[i])
      ensures h'.ops[i] in t.ended ==> Keeps(sb, Found(t.base, h', i), h'.parts[i])
    {
      if i < |h.ops| {
        assert PartOf(h.parts[i], h.ops[i]);
        assert h'.parts[..i] == h.parts[..i];
      }
    }
  }

  lemma WroteMore(sb: FsState.Sb, s: State, h: History, u: Update, t: State) returns (h': History)
    requires Follows(sb, s, h) && h.ops != [] && u.op == h.ops[|h.ops| - 1] && u.op !in s.ended
    requires t.groups == s.groups && t.base == s.base && t.ended == s.ended && t.current == s.current + [u]
    ensures Follows(sb, t, h')
  {
    hide Intact, Serial, Grouped, Replay, Keeps;
    GroupedSize(s.groups, h.done, h.cuts);
    var n := |h.parts| - 1;
    var part := h.parts[n] + [u];
    h' := h.(parts := h.parts[n := part]);
    assert h.parts == h.parts[..n] + [h.parts[n]] && h'.parts == h.parts[..n] + [part];
    FlatSnoc(h.parts[..n], h.parts[n]);
    FlatSnoc(h.parts[..n], part);
    forall i | 0 <= i < |h'.ops|
      ensures PartOf(h'.parts[i], h'.ops[i])
      ensures h'.ops[i] in t.ended ==> Keeps(sb, Found(t.base, h', i), h'.parts[i])
    {
      assert PartOf(h.parts[i], h.ops[i]);
      assert h'.parts[..i] == h.parts[..i];
    }
  }

  lemma AfterWrite(c: Config, sb: FsState.Sb, s: State, h: History, e: Step) returns (h': History)
    requires Inv(c, s) && Follows(sb, s, h) && e.Write? && Enabled(c, s, e) && InTurn(sb, s, e)
    ensures Follows(sb, Next(c, s, e), h')
  {
    hide LogCrash.Contents, LogCrash.Durable, LogCrash.GroupsWhole, Follows;
    var u := Update(e.op, e.blockno, e.data);
    FollowsMeans(sb, s, h);
    if e.op in h.ops {
      var i :| 0 <= i < |h.ops| && h.ops[i] == e.op;
      PartIs(h.ops, h.parts, i);
      assert PartOf(h.parts[i], h.ops[i]);
      LastPart(h.ops, h.parts);
      h' := WroteMore(sb, s, h, u, Next(c, s, e));
    } else {
      NotInParts(h.ops, h.parts, e.op);
      if s.current != [] {
        LastPart(h.ops, h.parts);
      }
      h' := WroteFirst(sb, s, h, u, Next(c, s, e));
    }
  }

  lemma FollowsMeans(sb: FsState.Sb, s: State, h: History)
    requires Follows(sb, s, h)
    ensures Parts(h.ops, h.parts) && s.current == Flat(h.parts) && |h.cuts| == |s.groups| + 1
    ensures Grouped(s.groups, h.done, h.cuts) && h.cuts[|s.groups|] == |h.done| && Serial(sb, s.base, h.done)
  {
    GroupedSize(s.groups, h.done, h.cuts);
  }

  /** The committed state with the earlier parts of the log is what part i found. */
  lemma FoundIs(sb: FsState.Sb, s: State, h: History, i: nat)
    requires Follows(sb, s, h) && i <= |h.parts|
    ensures Found(s.base, h, i) == Replay(Committed(s), Flat(h.parts[..i]))
  {
    hide Intact, Serial, Grouped, Keeps, Parts;
    FollowsMeans(sb, s, h);
    GroupedReplay(s.base, s.groups, h.done, h.cuts, |s.groups|);
    assert s.groups[..|s.groups|] == s.groups && h.done[..|h.done|] == h.done;
    FlatConcat(h.done, h.parts[..i]);
    ReplayConcat(s.base, Flat(h.done), Flat(h.parts[..i]));
  }

  lemma EndKeeps(c: Config, sb: FsState.Sb, s: State, h: History, op: OpId, i: nat)
    requires Inv(c, s) && Follows(sb, s, h) && op in s.active && InTurn(sb, s, End(op))
    requires i < |h.ops| && |h.parts| == |h.ops| && (h.ops[i] in s.ended || h.ops[i] == op)
    ensures Keeps(sb, Found(s.base, h, i), h.parts[i])
  {
    hide LogCrash.Contents, LogCrash.Durable, LogCrash.GroupsWhole, Keeps, Serial, Grouped, Found, Before;
    if h.ops[i] == op {
      FoundIs(sb, s, h, i);
      PartIs(h.ops, h.parts, i);
    }
  }

  lemma AfterEnd(c: Config, sb: FsState.Sb, s: State, h: History, op: OpId) returns (h': History)
    requires Inv(c, s) && Follows(sb, s, h) && Enabled(c, s, End(op)) && InTurn(sb, s, End(op))
    ensures Follows(sb, Next(c, s, End(op)), h')
  {
    hide Keeps, Serial, Found, Before, Grouped, Inv, InTurn, Flat;
    FollowsMeans(sb, s, h);
    var t := Next2(c, s, op);
    forall i | 0 <= i < |h.ops| && (h.ops[i] in s.ended || h.ops[i] == op)
      ensures Keeps(sb, Found(s.base, h, i), h.parts[i])
    {
      EndKeeps(c, sb, s, h, op, i);
    }
    if t.groups == s.groups {
      h' := h;
    } else {
      NoParts(h.ops, h.parts);
      h' := h.(cuts := h.cuts + [|h.done|]);
      GroupedSnoc(s.groups, h.done, h.cuts, Group(s.ended + {op}, []), []);
      assert h.done + [] == h.done;
    }
  }

  /** The state after end_op, with what it says about an empty log. */
  lemma Next2(c: Config, s: State, op: OpId) returns (t: State)
    requires Inv(c, s) && Enabled(c, s, End(op))
    ensures t == Next(c, s, End(op)) && t.base == s.base && t.current == s.current
    ensures t.groups == s.groups || (t.groups == s.groups + [Group(s.ended + {op}, [])] && s.current == [])
    ensures forall x :: x in t.ended ==> x in s.ended || x == op
  {
    hide LogCrash.Durable, LogCrash.GroupsWhole;
    t := Next(c, s, End(op));
  }

  lemma GroupedSnoc(gs: seq<Group>, done: seq<seq<Update>>, cuts: seq<nat>, g: Group, parts: seq<seq<Update>>)
    requires Grouped(gs, done, cuts) && cuts[|gs|] == |done| && g.updates == Flat(parts)
    ensures Grouped(gs + [g], done + parts, cuts + [|done + parts|])
  {
    hide Flat;
    var gs', done', cuts' := gs + [g], done + parts, cuts + [|done + parts|];
    forall k | 0 <= k < |gs'|
      ensures CutOf(gs'[k], done', cuts', k)
    {
      if k < |gs| {
        assert CutOf(gs[k], done, cuts, k);
        assert done'[cuts[k]..cuts[k + 1]] == done[cuts[k]..cuts[k + 1]];
      } else {
        assert done'[|done|..|done'|] == parts;
      }
    }
  }

  /** Parts that each keep the file system intact where they began are a serial continuation. */
  lemma {:induction false} SerialOn(sb: FsState.Sb, base: Disk, h: History, n: nat)
    requires Serial(sb, base, h.done) && n <= |h.parts|
    requires forall i :: 0 <= i < n ==> Keeps(sb, Found(base, h, i), h.parts[i])
    ensures Serial(sb, base, h.done + h.parts[..n])
  {
    hide Intact, Serial, Flat, Replay;
    if n == 0 {
      assert h.done + h.parts[..0] == h.done;
    } else {
      SerialOn(sb, base, h, n - 1);
      assert Keeps(sb, Found(base, h, n - 1), h.parts[n - 1]);
      SerialSnoc(sb, base, h.done + h.parts[..n - 1], h.parts[n - 1]);
      assert h.done + h.parts[..n - 1] + [h.parts[n - 1]] == h.done + h.parts[..n];
    }
  }

  /** While a commit copies, every operation that logged something has ended. */
  lemma AllEnded(c: Config, s: State, ops: seq<OpId>, parts: seq<seq<Update>>, i: nat)
    requires Inv(c, s) && s.phase.Copying? && Parts(ops, parts) && s.current == Flat(parts) && i < |ops|
    ensures ops[i] in s.ended
  {
    hide LogCrash.Contents, LogCrash.Durable, LogCrash.GroupsWhole;
    PartIs(ops, parts, i);
    assert PartOf(parts[i], ops[i]);
    if ops[i] !in s.ended {
      forall u | u in s.current
        ensures u.op != ops[i]
      {
      }
      NoneOf(s.current, ops[i]);
    }
  }

  lemma AfterCommit(c: Config, sb: FsState.Sb, s: State, h: History) returns (h': History)
    requires Inv(c, s) && Follows(sb, s, h) && Enabled(c, s, CommitHead)
    ensures Follows(sb, Next(c, s, CommitHead), h')
  {
    hide Keeps, Serial, Found, Grouped, Inv, Flat, Parts, LogMachine.EncodeHead;
    FollowsMeans(sb, s, h);
    PartsSize(h.ops, h.parts);
    forall i | 0 <= i < |h.parts|
      ensures Keeps(sb, Found(s.base, h, i), h.parts[i])
    {
      AllEnded(c, s, h.ops, h.parts, i);
    }
    SerialOn(sb, s.base, h, |h.parts|);
    assert h.parts[..|h.parts|] == h.parts;
    GroupedSnoc(s.groups, h.done, h.cuts, Group(s.ended, s.current), h.parts);
    h' := History(h.done + h.parts, h.cuts + [|h.done + h.parts|], [], []);
    NothingLogged();
  }

  lemma PartsSize(ops: seq<OpId>, parts: seq<seq<Update>>)
    requires Parts(ops, parts)
    ensures |ops| == |parts|
  {
  }

  lemma NothingLogged()
    ensures Flat([]) == [] && Parts([], [])
  {
  }

  lemma AfterOther(c: Config, sb: FsState.Sb, s: State, h: History, e: Step) returns (h': History)
    requires Inv(c, s) && Follows(sb, s, h) && Enabled(c, s, e) && !e.Write? && !e.End? && !e.CommitHead?
    ensures Follows(sb, Next(c, s, e), h')
  {
    hide Keeps, Serial, Found, Grouped, Inv, Flat, Parts, LogMachine.EncodeHead;
    FollowsMeans(sb, s, h);
    NothingLogged();
    h' := if e.Crash? then h.(ops := [], parts := []) else h;
  }

  lemma FollowsStep(c: Config, sb: FsState.Sb, s: State, h: History, e: Step) returns (h': History)
    requires Inv(c, s) && Follows(sb, s, h) && Enabled(c, s, e) && InTurn(sb, s, e)
    ensures Follows(sb, Next(c, s, e), h')
  {
    hide Inv, Follows, InTurn, LogMachine.Next;
    match e
    case Write(_, _, _) => h' := AfterWrite(c, sb, s, h, e);
    case End(op) => h' := AfterEnd(c, sb, s, h, op);
    case CommitHead => h' := AfterCommit(c, sb, s, h);
    case _ => h' := AfterOther(c, sb, s, h, e);
  }

  lemma {:induction false} FollowsRun(c: Config, sb: FsState.Sb, s: State, h: History, steps: seq<Step>)
    returns (h': History)
    requires Inv(c, s) && Follows(sb, s, h) && IsRun(c, s, steps) && InTurns(c, sb, s, steps)
    ensures Follows(sb, Final(c, s, steps), h')
    decreases steps
  {
    hide Inv, Follows, InTurn, LogMachine.Next, LogMachine.Enabled;
    if steps == [] {
      h' := h;
    } else {
      InvPreserved(c, s, steps[0]);
      h' := FollowsStep(c, sb, s, h, steps[0]);
      h' := FollowsRun(c, sb, Next(c, s, steps[0]), h', steps[1..]);
    }
  }

  lemma FollowsInit(c: Config, sb: FsState.Sb, s: State) returns (h: History)
    requires Init(c, s)
    ensures Follows(sb, s, h)
  {
    h := History([], [0], [], []);
  }

  // ---------------------------------------------------------------- the result

  /** In every run in which operations take turns, crashes included: the committed groups are whole
      operations in order, each of which kept the file system intact. */
  lemma GroupsAreOperations(c: Config, sb: FsState.Sb, s0: State, steps: seq<Step>)
    returns (parts: seq<seq<Update>>, cuts: seq<nat>)
    requires Init(c, s0) && IsRun(c, s0, steps) && InTurns(c, sb, s0, steps)
    ensures Serial(sb, s0.base, parts) && Grouped(Final(c, s0, steps).groups, parts, cuts)
    ensures |cuts| == |Final(c, s0, steps).groups| + 1 && cuts[|Final(c, s0, steps).groups|] == |parts|
  {
    hide Inv, Init, InTurns;
    InitInv(c, s0);
    var h := FollowsInit(c, sb, s0);
    h := FollowsRun(c, sb, s0, h, steps);
    FollowsMeans(sb, Final(c, s0, steps), h);
    GroupsArePrefix(c, s0, steps);
    return h.done, h.cuts;
  }

  /** And so a crash at any point, and recovery, leave an intact file system: the one after the
      operations committed. */
  lemma CrashAnywhere(c: Config, sb: FsState.Sb, s0: State, steps: seq<Step>) returns (parts: seq<seq<Update>>)
    requires Init(c, s0) && IsRun(c, s0, steps) && InTurns(c, sb, s0, steps) && Above(c, sb) && Intact(sb, s0.base)
    ensures var s := Final(c, s0, steps);
            && Shape(c, s) && Intact(sb, AfterCrash(c, s.disk)) && Serial(sb, s0.base, parts)
            && (forall b: nat :: Home(c, b) ==> AfterCrash(c, s.disk)[b] == Replay(s0.base, Flat(parts))[b])
  {
    hide Intact, Init, InTurns, Serial, Grouped, Flat, Replay;
    var cuts;
    parts, cuts := GroupsAreOperations(c, sb, s0, steps);
    ServedSurvives(c, sb, s0, steps, parts, cuts);
    assert parts[..|parts|] == parts;
  }
}
