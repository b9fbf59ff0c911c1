/** The list of groups that cannot be sent to, used by many goroutines: blocking a group,
    checking it before a send, and unblocking it in two separately locked steps
    (model/qqbot/group_send_guard.go). */
module GroupBlocking {
  import opened Wrappers

  const NANOS_PER_SECOND := 1_000_000_000

  type Blocks = map<string, int>

  /** An event that read the block of `group` as set at `seen` and found itself later. */
  datatype Pending = Pending(group: string, seen: int, eventTime: int)

  /** The shared list, the goroutines that are between their two steps, and those that have passed
      the check for a group and may now call it, once or again and again. */
  datatype State = State(blocks: Blocks, pending: map<nat, Pending>, passed: map<nat, string>)

  datatype Action =
    | Mark(group: string, now: int)
    | ReadBlock(thread: nat, group: string, eventTime: int)
    | ClearBlock(thread: nat)
    | CheckGroup(thread: nat, group: string)
    | MakeCall(thread: nat)

  /** What an action reports: an ignored event, a refused invocation, a call to a group. */
  datatype Report = Nothing | Ignored | Accepted | Refused | Called(group: string)

  predicate IsLater(eventTime: int, blockedAt: int) {
    eventTime > 0 && eventTime * NANOS_PER_SECOND > blockedAt
  }

  function Step(s: State, a: Action): (State, Report) {
    match a
    case Mark(group, now) =>
      (if group == "" || group in s.blocks then s else s.(blocks := s.blocks[group := now]), Nothing)
    case ReadBlock(thread, group, eventTime) =>
      if group == "" || group !in s.blocks then (s, Accepted)
      else if !IsLater(eventTime, s.blocks[group]) then (s, Ignored)
      else (s.(pending := s.pending[thread := Pending(group, s.blocks[group], eventTime)]), Nothing)
    case ClearBlock(thread) =>
      if thread !in s.pending then (s, Nothing)
      else
        var p := s.pending[thread];
        var blocks := if p.group in s.blocks && s.blocks[p.group] == p.seen then s.blocks - {p.group} else s.blocks;
        (s.(blocks := blocks, pending := s.pending - {thread}), Accepted)
    case CheckGroup(thread, group) =>
      if group != "" && group in s.blocks then (s.(passed := s.passed - {thread}), Refused)
      else (s.(passed := s.passed[thread := group]), Accepted)
    case MakeCall(thread) =>
      (s, if thread in s.passed then Called(s.passed[thread]) else Nothing)
  }

  function Run(s: State, actions: seq<Action>): State
    decreases |actions|
  {
    if actions == [] then s else Run(Step(s, actions[0]).0, actions[1..])
  }

  /** The calls to `group` that `thread` makes in a run. */
  function CallsBy(thread: nat, s: State, actions: seq<Action>, group: string): nat
    decreases |actions|
  {
    if actions == [] then 0
    else
      var (t, report) := Step(s, actions[0]);
      (if actions[0] == MakeCall(thread) && report == Called(group) then 1 else 0)
      + CallsBy(thread, t, actions[1..], group)
  }

  predicate Passed(s: State, thread: nat, group: string) { thread in s.passed && s.passed[thread] == group }

  /** `thread` begins no invocation in the run. */
  predicate NoCheckBy(thread: nat, actions: seq<Action>) {
    actions == [] || (!(actions[0].CheckGroup? && actions[0].thread == thread) && NoCheckBy(thread, actions[1..]))
  }

  const START := State(map[], map[], map[])

  /** A goroutine between its steps carries an event later than the block it saw. */
  ghost predicate Sound(s: State) {
    forall t :: t in s.pending ==> IsLater(s.pending[t].eventTime, s.pending[t].seen)
  }

  /** Every event between its steps is one of the run's. */
  ghost predicate FromRun(s: State, actions: seq<Action>) {
    forall t :: t in s.pending ==> ReadBlock(t, s.pending[t].group, s.pending[t].eventTime) in actions
  }

  lemma {:induction false} RunSound(actions: seq<Action>)
    ensures Sound(Run(START, actions)) && FromRun(Run(START, actions), actions)
  {
    if actions != [] {
      var front, last := actions[..|actions| - 1], actions[|actions| - 1];
      RunSound(front);
      assert actions == front + [last];
      RunInTwo(START, front, [last]);
      var s := Run(START, front);
      assert [last][1..] == [] && Run(s, [last]) == Step(s, last).0;
    }
  }

  lemma {:induction false} RunInTwo(s: State, a: seq<Action>, b: seq<Action>)
    ensures Run(s, a + b) == Run(Run(s, a), b)
    decreases |a|
  {
    if a == [] {
      assert a + b == b;
    } else {
      assert (a + b)[1..] == a[1..] + b;
      RunInTwo(Step(s, a[0]).0, a[1..], b);
    }
  }

  /** In every state a run can reach: a block is never overwritten, and what removes it is the
      second step of one of the run's events for that group, strictly later than the block. */
  lemma OnlyLaterEventsUnblock(actions: seq<Action>, a: Action, group: string)
    requires group in Run(START, actions).blocks
    ensures var s := Run(START, actions);
            var t := Step(s, a).0;
            && (group in t.blocks ==> t.blocks[group] == s.blocks[group])
            && (group !in t.blocks ==>
                  && a.ClearBlock? && a.thread in s.pending && s.pending[a.thread].seen == s.blocks[group]
                  && ReadBlock(a.thread, group, s.pending[a.thread].eventTime) in actions
                  && IsLater(s.pending[a.thread].eventTime, s.blocks[group]))
  {
    hide Run;
    RunSound(actions);
  }

  /** No goroutine is about to remove the block set at `at`. */
  ghost predicate NoThreat(s: State, group: string, at: int) {
    forall t :: t in s.pending && s.pending[t].group == group ==> s.pending[t].seen != at
  }

  /** No event of the run for the group is later than the block. */
  predicate NoLaterEvent(actions: seq<Action>, group: string, at: int) {
    actions == [] ||
    ((actions[0].ReadBlock? && actions[0].group == group ==> !IsLater(actions[0].eventTime, at))
     && NoLaterEvent(actions[1..], group, at))
  }

  /** However the goroutines interleave: until an event later than the block arrives, the
      block stays as it was set, and just those may call the group that passed the check before
      it was set and have begun nothing since. */
  lemma {:induction false} BlockHolds(s: State, actions: seq<Action>, group: string, at: int, thread: nat)
    requires group != "" && group in s.blocks && s.blocks[group] == at
    requires NoThreat(s, group, at) && NoLaterEvent(actions, group, at)
    ensures group in Run(s, actions).blocks && Run(s, actions).blocks[group] == at
    ensures Passed(Run(s, actions), thread, group) <==> Passed(s, thread, group) && NoCheckBy(thread, actions)
    ensures !Passed(s, thread, group) ==> CallsBy(thread, s, actions, group) == 0
    decreases |actions|
  {
    if actions != [] {
      BlockHolds(Step(s, actions[0]).0, actions[1..], group, at, thread);
    }
  }

  /** A goroutine that begins another invocation for the group is refused and calls it no more. */
  lemma RefusedCallsNoMore(s: State, actions: seq<Action>, group: string, at: int, thread: nat)
    requires group != "" && group in s.blocks && s.blocks[group] == at
    requires NoThreat(s, group, at) && NoLaterEvent(actions, group, at)
    ensures Step(s, CheckGroup(thread, group)).1 == Refused
    ensures CallsBy(thread, Step(s, CheckGroup(thread, group)).0, actions, group) == 0
  {
    BlockHolds(Step(s, CheckGroup(thread, group)).0, actions, group, at, thread);
  }

  /** One that has passed the check does call a group blocked since: the block is not looked at
      again before the call or between its retries. */
  lemma PassedCheckStillCalls(group: string, at: int, thread: nat)
    requires group != ""
    ensures var s := Run(START, [CheckGroup(thread, group), Mark(group, at)]);
            group in s.blocks && Step(s, MakeCall(thread)).1 == Called(group)
  {
    var actions := [CheckGroup(thread, group), Mark(group, at)];
    var s := Step(START, actions[0]).0;
    assert actions[1..] == [actions[1]] && [actions[1]][1..] == [];
    assert Run(s, [actions[1]]) == Run(Step(s, actions[1]).0, []);
  }

  lemma {:induction false} NoLaterEventMeans(actions: seq<Action>, group: string, at: int, a: Action)
    requires NoLaterEvent(actions, group, at) && a in actions && a.ReadBlock? && a.group == group
    ensures !IsLater(a.eventTime, at)
  {
    if a != actions[0] {
      NoLaterEventMeans(actions[1..], group, at, a);
    }
  }

  /** So over a whole history without an event later than the block, it stays once it is set,
      and only goroutines that had passed the check by then call the group. */
  lemma BlockHoldsInEveryRun(before: seq<Action>, after: seq<Action>, group: string, at: int, thread: nat)
    requires group != "" && group in Run(START, before).blocks && Run(START, before).blocks[group] == at
    requires NoLaterEvent(before, group, at) && NoLaterEvent(after, group, at)
    ensures group in Run(START, before + after).blocks && Run(START, before + after).blocks[group] == at
    ensures !Passed(Run(START, before), thread, group) ==> CallsBy(thread, Run(START, before), after, group) == 0
  {
    hide Run, NoLaterEvent, CallsBy;
    var s := Run(START, before);
    RunSound(before);
    forall t | t in s.pending && s.pending[t].group == group ensures s.pending[t].seen != at {
      NoLaterEventMeans(before, group, at, ReadBlock(t, group, s.pending[t].eventTime));
    }
    BlockHolds(s, after, group, at, thread);
    RunInTwo(START, before, after);
  }

  // ----- What the steps achieve

  /** Marking a group blocks it unless it is blocked; a check is refused exactly for a blocked
      group; and an event is ignored exactly if it is not later than the block of its group. */
  lemma StepsDecide(s: State, thread: nat, group: string, time: int)
    ensures var marked := Step(s, Mark(group, time)).0;
            && (group != "" && group !in s.blocks ==> marked == s.(blocks := s.blocks[group := time]))
            && (group == "" || group in s.blocks ==> marked == s)
    ensures var (t, report) := Step(s, CheckGroup(thread, group));
            && (report == Refused <==> group != "" && group in s.blocks)
            && (report != Refused ==> report == Accepted && Passed(t, thread, group))
    ensures var (t, report) := Step(s, ReadBlock(thread, group, time));
            && (report == Accepted <==> group == "" || group !in s.blocks)
            && (report == Ignored <==>
                  group != "" && group in s.blocks && (time <= 0 || time * NANOS_PER_SECOND <= s.blocks[group]))
            && t.blocks == s.blocks
  {
  }

  /** The run has neither a step of the thread's events nor a new block of the group. */
  predicate Undisturbed(actions: seq<Action>, thread: nat, group: string) {
    actions == [] ||
    (&& !(actions[0].ReadBlock? && actions[0].thread == thread)
     && !(actions[0].ClearBlock? && actions[0].thread == thread)
     && !(actions[0].Mark? && actions[0].group == group)
     && Undisturbed(actions[1..], thread, group))
  }

  lemma {:induction false} PendingStays(s: State, actions: seq<Action>, thread: nat, group: string, at: int)
    requires thread in s.pending && s.pending[thread].group == group && Undisturbed(actions, thread, group)
    requires group in s.blocks ==> s.blocks[group] == at
    ensures var t := Run(s, actions);
            && thread in t.pending && t.pending[thread] == s.pending[thread]
            && (group in t.blocks ==> t.blocks[group] == at)
    decreases |actions|
  {
    if actions != [] {
      PendingStays(Step(s, actions[0]).0, actions[1..], thread, group, at);
    }
  }

  /** An event strictly later than the block removes it with its own second step and is accepted,
      whatever happens in between but a new block. */
  lemma LaterEventUnblocks(s: State, actions: seq<Action>, thread: nat, group: string, time: int)
    requires group != "" && group in s.blocks && time > 0 && time * NANOS_PER_SECOND > s.blocks[group]
    requires Undisturbed(actions, thread, group)
    ensures var (read, report) := Step(s, ReadBlock(thread, group, time));
            && report == Nothing
            && var (after, end) := Step(Run(read, actions), ClearBlock(thread));
               group !in after.blocks && end == Accepted && thread !in after.pending
  {
    hide Run;
    PendingStays(Step(s, ReadBlock(thread, group, time)).0, actions, thread, group, s.blocks[group]);
  }

  /** A block set again between the two steps of an event survives the second step, unless it
      carries the very same time. */
  lemma ReblockedGroupSurvives(s: State, thread: nat, again: int)
    requires thread in s.pending
    ensures var p := s.pending[thread];
            var reblocked := s.(blocks := s.blocks[p.group := again]);
            p.group in Step(reblocked, ClearBlock(thread)).0.blocks <==> again != p.seen
  {
  }

  class UnavailableGroups {
    var blocks: Blocks
    var pending: map<nat, Pending>
    var passed: map<nat, string>

    ghost function Shared(): State
      reads this
    {
      State(blocks, pending, passed)
    }

    constructor ()
      ensures Shared() == START
    {
      blocks, pending, passed := map[], map[], map[];
    }

    method MarkGroupSendUnavailable(group: string, now: int)
      modifies this
      ensures Shared() == Step(old(Shared()), Mark(group, now)).0
    {
      if group == "" {
        return;
      }
      if group !in blocks {
        blocks := blocks[group := now];
      }
    }

    method BlockedGroupSendError(group: string) returns (refused: bool)
      ensures forall thread :: refused <==> Step(Shared(), CheckGroup(thread, group)).1.Refused?
    {
      if group == "" {
        return false;
      }
      return group in blocks;
    }

    /** How executeOutboundCall begins: the check, once for all the calls that follow. */
    method BeginOutboundCall(thread: nat, group: string) returns (report: Report)
      modifies this
      ensures (Shared(), report) == Step(old(Shared()), CheckGroup(thread, group))
    {
      var refused := BlockedGroupSendError(group);
      if refused {
        passed := passed - {thread};
        return Refused;
      }
      passed := passed[thread := group];
      return Accepted;
    }

    /** The first step of ignoreUnavailableGroupEvent, up to the release of the read lock. */
    method ReadBlockedAt(thread: nat, group: string, eventTime: int) returns (report: Report)
      modifies this
      ensures (Shared(), report) == Step(old(Shared()), ReadBlock(thread, group, eventTime))
    {
      if group == "" || group !in blocks {
        return Accepted;
      }
      var blockedAt := blocks[group];
      if eventTime <= 0 || !(eventTime * NANOS_PER_SECOND > blockedAt) {
        return Ignored;
      }
      pending := pending[thread := Pending(group, blockedAt, eventTime)];
      return Nothing;
    }

    /** Its second step, under the write lock. */
    method ClearIfUnchanged(thread: nat) returns (report: Report)
      modifies this
      ensures (Shared(), report) == Step(old(Shared()), ClearBlock(thread))
    {
      if thread !in pending {
        return Nothing;
      }
      var state := pending[thread];
      if state.group in blocks && blocks[state.group] == state.seen {
        blocks := blocks - {state.group};
      }
      pending := pending - {thread};
      return Accepted;
    }
  }
}
