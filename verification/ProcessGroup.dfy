/**
 * The anchored process group: a retained, unreaped child pins a process-group id, so that a signal to the
 * group can never reach a recycled one.
 */
module ProcessGroup {
  import opened Prelude

  type Pid = int

  // ---- The kernel ----

  datatype ProcessStatus = Running | Zombie

  /** `birth` tells the successive processes that carry one pid apart. */
  datatype Process = Process(group: Pid, session: Pid, status: ProcessStatus, birth: nat)

  datatype SignalKind = Term | Kill

  /** A signal to a process group, with the birth of the group it reached. */
  datatype GroupSignal = GroupSignal(kind: SignalKind, group: Pid, groupBirth: nat)

  /** `groupBirth` tells the successive groups that carry one id apart; `signals` is the history of group signals. */
  datatype Kernel = Kernel(processes: map<Pid, Process>, groupBirth: map<Pid, nat>, clock: nat,
                           signals: seq<GroupSignal>)

  ghost predicate GroupInUse(k: Kernel, group: Pid) {
    exists pid :: pid in k.processes && k.processes[pid].group == group
  }

  ghost predicate ValidKernel(k: Kernel) {
    && (forall pid :: pid in k.processes ==> pid > 0 && k.processes[pid].group in k.groupBirth)
    && (forall group :: group in k.groupBirth ==> k.groupBirth[group] < k.clock)
  }

  /** What the rest of the system may do at any moment. */
  datatype OsEvent =
    | Fork(pid: Pid, group: Pid, session: Pid)
    | Exit(pid: Pid)
    | Reap(pid: Pid)
    | Regroup(pid: Pid, group: Pid)

  /** A group comes into being when a process becomes its first member. */
  ghost function Join(k: Kernel, pid: Pid, process: Process): Kernel {
    k.(processes := k.processes[pid := process],
       groupBirth := if GroupInUse(k, process.group) then k.groupBirth else k.groupBirth[process.group := k.clock],
       clock := k.clock + 1)
  }

  /**
   * A pid is only given out while neither a process nor a group carries it. A process joins an existing
   * group or leads a new one named after itself. Only an exited process is reaped, and a child that is
   * still held is not: it is this process's own child and nothing has waited for it or dropped it.
   */
  ghost predicate Enabled(k: Kernel, held: set<Pid>, e: OsEvent) {
    match e
    case Fork(pid, group, _) =>
      && pid > 0 && pid !in k.processes && !GroupInUse(k, pid)
      && (group == pid || GroupInUse(k, group))
    case Exit(pid) => pid in k.processes
    case Reap(pid) => pid in k.processes && k.processes[pid].status == Zombie && pid !in held
    case Regroup(pid, group) =>
      && pid in k.processes && pid !in held
      && (group == pid || GroupInUse(k, group))
  }

  ghost function OsStep(k: Kernel, e: OsEvent): Kernel {
    match e
    case Fork(pid, group, session) => Join(k, pid, Process(group, session, Running, k.clock))
    case Exit(pid) =>
      if pid in k.processes then k.(processes := k.processes[pid := k.processes[pid].(status := Zombie)]) else k
    case Reap(pid) => k.(processes := k.processes - {pid})
    case Regroup(pid, group) => if pid in k.processes then Join(k, pid, k.processes[pid].(group := group)) else k
  }

  // ---- The handle ----

  datatype DropPolicy = KillGroup | ReleaseOnly

  datatype Identity = Identity(pid: Pid, group: Pid, session: Pid, birth: nat)

  datatype Handle = Handle(
    processGroup: Pid,
    anchorIdentity: Option<Identity>,
    anchor: Option<Pid>,
    anchorStdin: bool,
    dropPolicy: DropPolicy,
    signalAttempts: nat,
    dropped: bool)

  const U32_MAX := 0xFFFF_FFFF

  /** `waiting` is the child a release has taken out of the handle and awaits. */
  datatype System = System(kernel: Kernel, handle: Handle, waiting: Option<Pid>)

  /** The children that only this process can reap: the retained anchor and one that is being awaited. */
  function Held(s: System): set<Pid> {
    (if s.handle.anchor.Some? && !s.handle.dropped then {s.handle.anchor.value} else {})
    + (if s.waiting.Some? then {s.waiting.value} else {})
  }

  function Send(k: Kernel, kind: SignalKind, group: Pid): Kernel {
    if group in k.groupBirth then k.(signals := k.signals + [GroupSignal(kind, group, k.groupBirth[group])]) else k
  }

  predicate MaySignal(h: Handle) {
    && h.anchorIdentity.Some? && h.anchor.Some?
    && h.anchorIdentity.value.group == h.processGroup
    && h.anchorIdentity.value.pid > 0
  }

  datatype Action =
    | Signal(kind: SignalKind)
    | BeginRelease
    | FinishRelease(waited: bool)
    | AbandonRelease
    | DropHandle
    | Elsewhere(event: OsEvent)

  function AfterSignal(s: System, kind: SignalKind): System {
    if !MaySignal(s.handle) then s
    else
      s.(kernel := Send(s.kernel, kind, s.handle.processGroup),
         handle := s.handle.(signalAttempts := if s.handle.signalAttempts < U32_MAX then s.handle.signalAttempts + 1
                                               else U32_MAX))
  }

  /** The part of a release before it awaits the child. */
  function AfterBeginRelease(s: System): System {
    if s.handle.anchor.None? then s.(handle := s.handle.(anchorStdin := false, anchorIdentity := None))
    else s.(handle := s.handle.(anchorStdin := false, anchor := None), waiting := s.handle.anchor)
  }

  predicate HasExited(k: Kernel, pid: Pid) {
    pid in k.processes && k.processes[pid].status == Zombie
  }

  /** The wait returns: with the exited child reaped, or with an error that leaves the identity in place. */
  function AfterFinishRelease(s: System, waited: bool): System {
    if s.waiting.None? then s
    else if !waited then s.(waiting := None)
    else if !HasExited(s.kernel, s.waiting.value) then s
    else
      s.(kernel := s.kernel.(processes := s.kernel.processes - {s.waiting.value}),
         handle := s.handle.(anchorIdentity := None),
         waiting := None)
  }

  function AfterDrop(s: System): System {
    if s.handle.anchor.None? then s.(handle := s.handle.(dropped := true))
    else
      s.(kernel := if s.handle.dropPolicy == KillGroup && MaySignal(s.handle)
           then Send(s.kernel, Kill, s.handle.processGroup)
                   else s.kernel,
         handle := s.handle.(anchorStdin := false, dropped := true))
  }

  /** One action; what is not possible in a state changes nothing. */
  ghost function Next(s: System, a: Action): System {
    match a
    case Signal(kind) => if s.handle.dropped then s else AfterSignal(s, kind)
    case BeginRelease => if s.handle.dropped || s.waiting.Some? then s else AfterBeginRelease(s)
    case FinishRelease(waited) => AfterFinishRelease(s, waited)
    case AbandonRelease => s.(waiting := None)
    case DropHandle => if s.handle.dropped then s else AfterDrop(s)
    case Elsewhere(event) =>
      if Enabled(s.kernel, Held(s), event) then s.(kernel := OsStep(s.kernel, event)) else s
  }

  ghost function After(s: System, actions: seq<Action>): System {
    if actions == [] then s else Next(After(s, actions[..|actions| - 1]), actions[|actions| - 1])
  }

  // ---- Pinning ----

  /** While the anchor is retained, its unreaped process is a member of the group it was spawned into. */
  ghost predicate Pinned(s: System, id: Identity, groupBirth: nat) {
    && ValidKernel(s.kernel)
    && s.handle.processGroup == id.group
    && (s.handle.anchor.Some? && !s.handle.dropped ==>
          && s.handle.anchor == Some(id.pid) && s.handle.anchorIdentity == Some(id)
          && s.waiting.None?
          && id.pid in s.kernel.processes
          && s.kernel.processes[id.pid].birth == id.birth
          && s.kernel.processes[id.pid].group == id.group
          && s.kernel.groupBirth[id.group] == groupBirth)
  }

  lemma OsKeepsPinned(s: System, id: Identity, groupBirth: nat, e: OsEvent)
    requires Pinned(s, id, groupBirth) && Enabled(s.kernel, Held(s), e)
    ensures Pinned(s.(kernel := OsStep(s.kernel, e)), id, groupBirth)
    ensures OsStep(s.kernel, e).signals == s.kernel.signals
  {
    if s.handle.anchor.Some? && !s.handle.dropped {
      assert GroupInUse(s.kernel, id.group);
    }
  }

  /**
   * Every action keeps the anchor pinned, and a group signal is only ever sent while the unreaped anchor
   * pins the group: to that group, in the incarnation the anchor was spawned into.
   */
  lemma ActionKeepsPinned(s: System, id: Identity, groupBirth: nat, a: Action)
    requires Pinned(s, id, groupBirth)
    ensures Pinned(Next(s, a), id, groupBirth)
    ensures || Next(s, a).kernel.signals == s.kernel.signals
            || (&& s.handle.anchor == Some(id.pid) && !s.handle.dropped
                && exists kind ::
                     Next(s, a).kernel.signals == s.kernel.signals + [GroupSignal(kind, id.group, groupBirth)])
  {
    match a
    case Elsewhere(event) =>
      if Enabled(s.kernel, Held(s), event) {
        OsKeepsPinned(s, id, groupBirth, event);
      }
    case Signal(kind) =>
      assert MaySignal(s.handle) && !s.handle.dropped ==>
        Next(s, a).kernel.signals == s.kernel.signals + [GroupSignal(kind, id.group, groupBirth)];
    case DropHandle =>
      assert MaySignal(s.handle) && !s.handle.dropped && s.handle.dropPolicy == KillGroup ==>
        Next(s, a).kernel.signals == s.kernel.signals + [GroupSignal(Kill, id.group, groupBirth)];
    case _ =>
  }

  lemma {:induction false} RunKeepsPinned(s: System, id: Identity, groupBirth: nat, actions: seq<Action>)
    requires Pinned(s, id, groupBirth)
    ensures Pinned(After(s, actions), id, groupBirth)
    ensures var signals := After(s, actions).kernel.signals;
            && s.kernel.signals <= signals
            && forall i :: |s.kernel.signals| <= i < |signals| ==>
                 signals[i].group == id.group && signals[i].groupBirth == groupBirth
  {
    hide Pinned;
    hide Next;
    if actions != [] {
      var before := actions[..|actions| - 1];
      RunKeepsPinned(s, id, groupBirth, before);
      ActionKeepsPinned(After(s, before), id, groupBirth, actions[|actions| - 1]);
    }
  }

  // ---- Silence after release ----

  /** The anchor has left the handle, or the handle is gone. */
  predicate Silent(s: System) {
    s.handle.anchor.None? || s.handle.dropped
  }

  lemma {:induction false} SilenceLasts(s: System, actions: seq<Action>)
    requires Silent(s)
    ensures Silent(After(s, actions)) && After(s, actions).kernel.signals == s.kernel.signals
  {
    if actions != [] {
      SilenceLasts(s, actions[..|actions| - 1]);
    }
  }

  lemma {:induction false} AfterSplits(s: System, first: seq<Action>, second: seq<Action>)
    ensures After(s, first + second) == After(After(s, first), second)
  {
    hide Next;
    if second == [] {
      assert first + second == first;
    } else {
      var last := |second| - 1;
      AfterSplits(s, first, second[..last]);
      assert (first + second)[..|first + second| - 1] == first + second[..last];
    }
  }

  /**
   * From the moment a release begins or the handle is dropped, whether the release completes, fails or is
   * abandoned, no further group signal is sent. The drop itself may send the last one.
   */
  lemma NoSignalAfterRelease(s: System, id: Identity, groupBirth: nat, before: seq<Action>, last: Action,
                             after: seq<Action>)
    requires Pinned(s, id, groupBirth) && (last == BeginRelease || last == DropHandle)
    ensures After(s, before + [last] + after).kernel.signals == Next(After(s, before), last).kernel.signals
    ensures last == BeginRelease ==>
              After(s, before + [last] + after).kernel.signals == After(s, before).kernel.signals
  {
    var mid := After(s, before);
    RunKeepsPinned(s, id, groupBirth, before);
    assert (before + [last])[..|before|] == before;
    assert After(s, before + [last]) == Next(mid, last);
    AfterSplits(s, before + [last], after);
    SilenceLasts(Next(mid, last), after);
  }

  // ---- Which signals are sent ----

  /** The anchor is in the handle and the handle is in use. */
  predicate Retained(s: System) {
    s.handle.anchor.Some? && !s.handle.dropped
  }

  /** While the anchor is retained, signalling is possible; once it is not, it never is. */
  lemma MaySignalExactly(s: System, id: Identity, groupBirth: nat)
    requires Pinned(s, id, groupBirth) && !s.handle.dropped
    ensures MaySignal(s.handle) <==> s.handle.anchor.Some?
  {
  }

  /** A signal reaches the group once, in its own kind, and is counted; the anchor stays where it is. */
  lemma SignalSendsOne(s: System, id: Identity, groupBirth: nat, kind: SignalKind)
    requires Pinned(s, id, groupBirth) && Retained(s)
    ensures var s' := Next(s, Signal(kind));
            && s'.kernel.signals == s.kernel.signals + [GroupSignal(kind, id.group, groupBirth)]
            && s'.kernel.processes == s.kernel.processes && s'.waiting == s.waiting
            && s'.handle == s.handle.(signalAttempts := s'.handle.signalAttempts)
            && s'.handle.signalAttempts == Least(s.handle.signalAttempts + 1, U32_MAX)
  {
  }

  /** Dropping kills the group under the policy that says so, and sends nothing under the other. */
  lemma DropSends(s: System, id: Identity, groupBirth: nat)
    requires Pinned(s, id, groupBirth) && Retained(s)
    ensures var s' := Next(s, DropHandle);
            && (s.handle.dropPolicy == KillGroup ==>
                  s'.kernel.signals == s.kernel.signals + [GroupSignal(Kill, id.group, groupBirth)])
            && (s.handle.dropPolicy == ReleaseOnly ==> s'.kernel.signals == s.kernel.signals)
            && s'.kernel.processes == s.kernel.processes && s'.handle.dropped && !s'.handle.anchorStdin
  {
  }

  function Least(a: nat, b: nat): nat {
    if a <= b then a else b
  }

  /** The kinds of the signal actions, in order. */
  function Kinds(actions: seq<Action>): seq<SignalKind> {
    if actions == [] then []
    else
      var last := actions[|actions| - 1];
      Kinds(actions[..|actions| - 1]) + if last.Signal? then [last.kind] else []
  }

  function Sent(kinds: seq<SignalKind>, group: Pid, groupBirth: nat): seq<GroupSignal> {
    seq(|kinds|, i requires 0 <= i < |kinds| => GroupSignal(kinds[i], group, groupBirth))
  }

  /** Neither a release nor a drop. */
  predicate KeepsAnchor(a: Action) {
    a != BeginRelease && a != DropHandle
  }

  ghost predicate AllKeepAnchor(actions: seq<Action>) {
    forall i :: 0 <= i < |actions| ==> KeepsAnchor(actions[i])
  }

  lemma QuietAction(s: System, id: Identity, groupBirth: nat, a: Action)
    requires Pinned(s, id, groupBirth) && Retained(s) && KeepsAnchor(a) && !a.Signal?
    ensures var s' := Next(s, a); s'.kernel.signals == s.kernel.signals && s'.handle == s.handle
  {
    if a.Elsewhere? && Enabled(s.kernel, Held(s), a.event) {
      OsKeepsPinned(s, id, groupBirth, a.event);
    }
  }

  /** As long as nothing is released or dropped, every signal action sends its own signal, and nothing else does. */
  lemma {:induction false} RetainedRunSends(s: System, id: Identity, groupBirth: nat, actions: seq<Action>)
    requires Pinned(s, id, groupBirth) && Retained(s) && AllKeepAnchor(actions)
    ensures var s' := After(s, actions);
            && Pinned(s', id, groupBirth) && Retained(s')
            && s'.handle == s.handle.(signalAttempts := s'.handle.signalAttempts)
            && s'.kernel.signals == s.kernel.signals + Sent(Kinds(actions), id.group, groupBirth)
    ensures s.handle.signalAttempts <= U32_MAX ==>
              After(s, actions).handle.signalAttempts == Least(s.handle.signalAttempts + |Kinds(actions)|, U32_MAX)
  {
    hide Pinned;
    hide Next;
    if actions != [] {
      var before, last := actions[..|actions| - 1], actions[|actions| - 1];
      RetainedRunSends(s, id, groupBirth, before);
      var mid := After(s, before);
      ActionKeepsPinned(mid, id, groupBirth, last);
      if last.Signal? {
        SignalSendsOne(mid, id, groupBirth, last.kind);
        assert Sent(Kinds(actions), id.group, groupBirth)
            == Sent(Kinds(before), id.group, groupBirth) + [GroupSignal(last.kind, id.group, groupBirth)];
      } else {
        QuietAction(mid, id, groupBirth, last);
      }
    }
  }

  lemma FirstReleaseEnds(s: System, id: Identity, groupBirth: nat, before: seq<Action>, last: Action,
                         after: seq<Action>)
    requires Pinned(s, id, groupBirth) && Retained(s) && AllKeepAnchor(before) && !KeepsAnchor(last)
    ensures After(s, before + [last] + after).kernel.signals
         == s.kernel.signals + Sent(Kinds(before), id.group, groupBirth)
            + if last == DropHandle && s.handle.dropPolicy == KillGroup then [GroupSignal(Kill, id.group, groupBirth)]
              else []
  {
    RetainedRunSends(s, id, groupBirth, before);
    NoSignalAfterRelease(s, id, groupBirth, before, last, after);
    hide Pinned;
    hide After;
    if last == DropHandle {
      hide Next;
      DropSends(After(s, before), id, groupBirth);
    }
  }

  /**
   * The signals of every run: those of its signal actions before the first release or drop, in order and of
   * their kinds, and then one kill exactly when the handle was dropped with its anchor under the kill policy.
   */
  lemma SignalsOfRun(s: System, id: Identity, groupBirth: nat, actions: seq<Action>) returns (n: nat)
    requires Pinned(s, id, groupBirth) && Retained(s)
    ensures n <= |actions| && (forall i :: 0 <= i < n ==> actions[i] != BeginRelease && actions[i] != DropHandle)
    ensures n < |actions| ==> actions[n] == BeginRelease || actions[n] == DropHandle
    ensures var killed := n < |actions| && actions[n] == DropHandle && s.handle.dropPolicy == KillGroup;
            After(s, actions).kernel.signals
            == s.kernel.signals + Sent(Kinds(actions[..n]), id.group, groupBirth)
               + if killed then [GroupSignal(Kill, id.group, groupBirth)] else []
  {
    n := 0;
    while n < |actions| && KeepsAnchor(actions[n])
      invariant n <= |actions| && AllKeepAnchor(actions[..n])
    {
      n := n + 1;
    }
    hide Pinned;
    hide After;
    if n < |actions| {
      assert actions == actions[..n] + [actions[n]] + actions[n + 1..];
      FirstReleaseEnds(s, id, groupBirth, actions[..n], actions[n], actions[n + 1..]);
    } else {
      assert actions[..n] == actions;
      RetainedRunSends(s, id, groupBirth, actions);
    }
  }

  // ---- What a release does ----

  /**
   * A release takes the child out of the handle and waits. Whatever happens meanwhile, an exited child is reaped
   * when the wait returns, so its pid names no process and the handle forgets the identity; a failed or abandoned
   * wait reaps nothing, and another release then only forgets the identity.
   */
  lemma ReleaseReaps(s: System, id: Identity, groupBirth: nat, elsewhere: seq<OsEvent>, waited: bool)
    requires Pinned(s, id, groupBirth) && Retained(s)
    ensures var begun := After(Next(s, BeginRelease), Elsewheres(elsewhere));
            var done := Next(begun, FinishRelease(waited));
            && begun.waiting == Some(id.pid) && begun.handle.anchor.None? && !begun.handle.anchorStdin
            && id.pid in begun.kernel.processes && begun.kernel.processes[id.pid].birth == id.birth
            && (waited && begun.kernel.processes[id.pid].status == Zombie ==>
                  && done.kernel.processes == begun.kernel.processes - {id.pid}
                  && done.waiting.None? && done.handle.anchorIdentity.None?)
            && (waited && begun.kernel.processes[id.pid].status == Running ==> done == begun)
            && (!waited ==> done == begun.(waiting := None) && done.handle.anchorIdentity == Some(id))
            && Next(begun, AbandonRelease) == begun.(waiting := None)
            && Next(begun.(waiting := None), BeginRelease)
               == begun.(waiting := None, handle := begun.handle.(anchorIdentity := None))
  {
    AwaitedStays(Next(s, BeginRelease), id, elsewhere);
  }

  function Elsewheres(events: seq<OsEvent>): seq<Action> {
    seq(|events|, i requires 0 <= i < |events| => Elsewhere(events[i]))
  }

  lemma {:induction false} AwaitedStays(s: System, id: Identity, elsewhere: seq<OsEvent>)
    requires s.waiting == Some(id.pid) && id.pid in s.kernel.processes && s.kernel.processes[id.pid].birth == id.birth
    ensures var s' := After(s, Elsewheres(elsewhere));
            && s'.waiting == s.waiting && s'.handle == s.handle
            && id.pid in s'.kernel.processes && s'.kernel.processes[id.pid].birth == id.birth
    decreases |elsewhere|
  {
    if elsewhere != [] {
      var before := elsewhere[..|elsewhere| - 1];
      AwaitedStays(s, id, before);
      assert Elsewheres(elsewhere)[..|elsewhere| - 1] == Elsewheres(before);
    }
  }

  /** The group id is in use again, by a later group. */
  ghost predicate Recycled(k: Kernel, group: Pid, groupBirth: nat) {
    GroupInUse(k, group) && group in k.groupBirth && k.groupBirth[group] != groupBirth
  }

  /**
   * Why pinning matters: once the anchor is reaped the group id can be given to a group of strangers, so a
   * signal sent to the bare number then would have reached the wrong processes.
   */
  lemma UnpinnedGroupsAreRecycled(s: System, id: Identity, groupBirth: nat)
    requires Pinned(s, id, groupBirth) && s.handle.anchor == Some(id.pid) && !s.handle.dropped && id.group == id.pid
    requires forall pid :: pid in s.kernel.processes && s.kernel.processes[pid].group == id.group ==> pid == id.pid
    ensures exists actions :: Recycled(After(s, actions).kernel, id.group, groupBirth)
  {
    var fork := Fork(id.pid, id.pid, id.session);
    var s3 := Next(Next(Next(s, BeginRelease), Elsewhere(Exit(id.pid))), FinishRelease(true));
    ReleasedGroupIsFree(s, id, groupBirth);
    AfterFour(s, BeginRelease, Elsewhere(Exit(id.pid)), FinishRelease(true), Elsewhere(fork));
    hide Next;
    var k := OsStep(s3.kernel, fork);
    assert k.processes[id.pid].group == id.group;
    assert Recycled(k, id.group, groupBirth);
  }

  lemma ReleasedGroupIsFree(s: System, id: Identity, groupBirth: nat)
    requires Pinned(s, id, groupBirth) && s.handle.anchor == Some(id.pid) && !s.handle.dropped && id.group == id.pid
    requires forall pid :: pid in s.kernel.processes && s.kernel.processes[pid].group == id.group ==> pid == id.pid
    ensures var s3 := Next(Next(Next(s, BeginRelease), Elsewhere(Exit(id.pid))), FinishRelease(true));
            var fork := Fork(id.pid, id.pid, id.session);
            && !GroupInUse(s3.kernel, id.group) && groupBirth < s3.kernel.clock
            && Next(s3, Elsewhere(fork)).kernel == OsStep(s3.kernel, fork)
  {
    var s1 := Next(s, BeginRelease);
    assert s1.waiting == Some(id.pid) && s1.kernel == s.kernel && s1.handle.anchor.None?;
    var s2 := Next(s1, Elsewhere(Exit(id.pid)));
    var zombie := s.kernel.processes[id.pid].(status := Zombie);
    assert s2.kernel == s.kernel.(processes := s.kernel.processes[id.pid := zombie]);
    var s3 := Next(s2, FinishRelease(true));
    assert s3.kernel.processes == s2.kernel.processes - {id.pid} && s3.kernel.clock == s.kernel.clock;
  }

  lemma AfterFour(s: System, a: Action, b: Action, c: Action, d: Action)
    ensures After(s, [a, b, c, d]) == Next(Next(Next(Next(s, a), b), c), d)
  {
    hide Next;
    assert [a][..0] == [] && [a, b][..1] == [a] && [a, b, c][..2] == [a, b] && [a, b, c, d][..3] == [a, b, c];
    assert After(s, [a]) == Next(s, a);
    assert After(s, [a, b]) == Next(Next(s, a), b);
    assert After(s, [a, b, c]) == Next(Next(Next(s, a), b), c);
  }

  // ---- The handle as an object ----

  class OperatingSystem {
    var kernel: Kernel

    constructor (kernel: Kernel)
      ensures this.kernel == kernel
    {
      this.kernel := kernel;
    }
  }

  class AnchoredProcessGroup {
    const os: OperatingSystem
    const processGroup: Pid
    const dropPolicy: DropPolicy
    var anchorIdentity: Option<Identity>
    var anchor: Option<Pid>
    var anchorStdin: bool
    var signalAttempts: nat
    ghost var dropped: bool
    var waiting: Option<Pid>

    ghost function View(): System
      reads this, os
    {
      System(os.kernel, Handle(processGroup, anchorIdentity, anchor, anchorStdin, dropPolicy, signalAttempts, dropped),
             waiting)
    }

    constructor (os: OperatingSystem, processGroup: Pid, identity: Identity, dropPolicy: DropPolicy)
      ensures this.os == os
      ensures View() == System(os.kernel, Handle(processGroup, Some(identity), Some(identity.pid), true, dropPolicy, 0,
                                                 false), None)
    {
      this.os := os;
      this.processGroup := processGroup;
      this.dropPolicy := dropPolicy;
      this.anchorIdentity := Some(identity);
      this.anchor := Some(identity.pid);
      this.anchorStdin := true;
      this.signalAttempts := 0;
      this.dropped := false;
      this.waiting := None;
    }

    /** Signals the group if the exact anchor capability is still retained; `accepted` is the system call's answer. */
    method SignalGroup(kind: SignalKind, accepted: bool) returns (ok: bool)
      requires !dropped
      modifies this`signalAttempts, os
      ensures View() == Next(old(View()), Signal(kind))
      ensures ok <==> old(MaySignal(View().handle)) && accepted
    {
      if anchorIdentity.None? {
        return false;
      }
      if anchor.None? || anchorIdentity.value.group != processGroup || anchorIdentity.value.pid <= 0 {
        return false;
      }
      signalAttempts := if signalAttempts < U32_MAX then signalAttempts + 1 else U32_MAX;
      os.kernel := Send(os.kernel, kind, processGroup);
      ok := accepted;
    }

    /** The part of a release that runs before the child is awaited. */
    method StartRelease()
      requires !dropped && waiting.None?
      modifies this
      ensures View() == Next(old(View()), BeginRelease)
    {
      if anchor.None? {
        anchorStdin := false;
        anchorIdentity := None;
        return;
      }
      anchorStdin := false;
      waiting := anchor;
      anchor := None;
    }

    /** The wait for the child returns. */
    method CompleteRelease(waited: bool)
      modifies this, os
      ensures View() == Next(old(View()), FinishRelease(waited))
    {
      if waiting.None? {
        return;
      }
      if !waited {
        waiting := None;
        return;
      }
      if HasExited(os.kernel, waiting.value) {
        os.kernel := os.kernel.(processes := os.kernel.processes - {waiting.value});
        waiting := None;
        anchorIdentity := None;
      }
    }

    /** The release future is dropped while it awaits the child. */
    method AbandonPendingRelease()
      modifies this`waiting
      ensures View() == Next(old(View()), AbandonRelease)
    {
      waiting := None;
    }

    method Drop()
      requires !dropped
      modifies this, os
      ensures View() == Next(old(View()), DropHandle)
    {
      dropped := true;
      if anchor.None? {
        return;
      }
      if dropPolicy == KillGroup && anchorIdentity.Some? && anchorIdentity.value.pid > 0
         && anchorIdentity.value.group == processGroup {
        os.kernel := Send(os.kernel, Kill, processGroup);
      }
      anchorStdin := false;
    }
  }

  /**
   * How the system answers an attempt to spawn an anchor: not at all, or with a child in some group and session,
   * whose identity could then be captured or not.
   */
  datatype SpawnAnswer = SpawnFails | Spawned(pid: Pid, group: Pid, session: Pid, captured: bool)

  /**
   * Spawns an anchor into an existing group, or as the leader of a new one. A handle is returned exactly for a
   * child that was captured in the expected group and session, and then the group is pinned.
   */
  method SpawnAnchor(os: OperatingSystem, group: Option<Pid>, expectedSession: Option<Pid>, policy: DropPolicy,
                     answer: SpawnAnswer)
    returns (handle: Option<AnchoredProcessGroup>)
    requires ValidKernel(os.kernel)
    requires answer.Spawned? ==> Enabled(os.kernel, {}, Fork(answer.pid, answer.group, answer.session))
    modifies os
    ensures handle.Some? <==>
              && answer.Spawned? && answer.captured && answer.group == (if group.Some? then group.value else answer.pid)
              && (expectedSession.Some? ==> expectedSession.value == answer.session)
    ensures handle.Some? ==>
              var v := handle.value.View();
              && fresh(handle.value) && handle.value.os == os
              && v.handle.anchor == Some(answer.pid) && v.handle.dropPolicy == policy && v.handle.signalAttempts == 0
              && answer.group in os.kernel.groupBirth
              && Pinned(v, Identity(answer.pid, answer.group, answer.session, old(os.kernel.clock)),
                        os.kernel.groupBirth[answer.group])
    ensures os.kernel.signals == old(os.kernel.signals)
  {
    handle := None;
    if answer.Spawned? {
      var identity := Identity(answer.pid, answer.group, answer.session, os.kernel.clock);
      var joined := JoinGroup(os.kernel, answer.pid, Process(answer.group, answer.session, Running, os.kernel.clock));
      os.kernel := joined;
      if !answer.captured {
        return;
      }
      var expected := if group.Some? then group.value else answer.pid;
      if identity.group != expected || (expectedSession.Some? && identity.session != expectedSession.value) {
        return;
      }
      var retained := new AnchoredProcessGroup(os, expected, identity, policy);
      handle := Some(retained);
    }
  }

  /** Anchors a group that exists already; group and session must be positive. */
  method AnchorExistingGroup(os: OperatingSystem, group: Pid, session: Pid, policy: DropPolicy, answer: SpawnAnswer)
    returns (handle: Option<AnchoredProcessGroup>)
    requires ValidKernel(os.kernel)
    requires answer.Spawned? ==> Enabled(os.kernel, {}, Fork(answer.pid, answer.group, answer.session))
    modifies os
    ensures handle.Some? <==>
              && group > 0 && session > 0
              && answer.Spawned? && answer.captured && answer.group == group && answer.session == session
    ensures handle.Some? ==>
              && answer.group in os.kernel.groupBirth
              && Pinned(handle.value.View(), Identity(answer.pid, group, session, old(os.kernel.clock)),
                        os.kernel.groupBirth[group])
    ensures os.kernel.signals == old(os.kernel.signals)
  {
    if group <= 0 || session <= 0 {
      return None;
    }
    handle := SpawnAnchor(os, Some(group), Some(session), policy, answer);
  }

  /** The kernel's own bookkeeping of a process that joins a group. */
  method JoinGroup(k: Kernel, pid: Pid, process: Process) returns (joined: Kernel)
    ensures joined == Join(k, pid, process)
  {
    var inUse := exists p :: p in k.processes && k.processes[p].group == process.group;
    joined := k.(processes := k.processes[pid := process],
                 groupBirth := if inUse then k.groupBirth else k.groupBirth[process.group := k.clock],
                 clock := k.clock + 1);
  }
}
