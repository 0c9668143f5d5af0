/** Exactly when the two readers report the permissions of the moment as well.

    Both confirm what they saw by comparing two looks. Permissions that go away and come back between the looks, with
    the content untouched, escape the comparison. Here this is shown to be the only way: over a stretch of time in which
    a tree stood still, every confirmed reading is right about permissions if and only if none of them returned. */
module ReadModes {
  import opened FileSystem
  import opened Paths
  import opened Administrative
  import opened UntrackedValidation
  import opened ReadAdministrative
  import Selection = UntrackedSelection
  import Untracked = ReadUntracked

  // ---------------------------------------------------------------- plain names have one path

  lemma PlainIsClean(names: seq<string>)
    requires PlainNames(names) && names != []
    ensures Selection.Clean(names) && Join(names, '/') != "."
  {
    forall i | 0 <= i < |names| ensures names[i] != "" && '/' !in names[i] { assert PlainName(names[i]); }
    SplitJoin(names, '/');
    SplitWhole(".", '/');
    assert PlainName(names[0]);
  }

  lemma {:induction false} PathOfJoin(names: seq<string>)
    requires PlainNames(names) && names != []
    ensures PathOf(names) == Join(names, '/')
  {
    var above, last := names[..|names| - 1], names[|names| - 1];
    assert names == above + [last];
    if above != [] {
      PathOfJoin(above);
      PlainIsClean(above);
      Selection.JoinSnoc(above, last);
    }
  }

  lemma PathOfInjective(a: seq<string>, b: seq<string>)
    requires PlainNames(a) && PlainNames(b) && PathOf(a) == PathOf(b)
    ensures a == b
  {
    if a != [] {
      PathOfJoin(a);
      PlainIsClean(a);
    }
    if b != [] {
      PathOfJoin(b);
      PlainIsClean(b);
    }
    if a != [] && b != [] { Selection.JoinInjective(a, b); }
  }

  // ---------------------------------------------------------------- the same observations at other times

  /** Times for the observations, none before its own and none before that of its directory. */
  ghost predicate Postponed(log: Log, times: seq<nat>, to: nat) {
    && |times| == |log.times| == |log.parents|
    && (forall k :: 0 <= k < |times| ==> log.times[k] <= times[k] <= to)
    && (forall k :: 0 < k < |times| && log.parents[k] < k ==> times[log.parents[k]] <= times[k])
  }

  ghost function ObservedAt(timeline: Timeline, o: Observation, t: nat): Observation {
    o.(info := StatOf(timeline(t), o.info.ino))
  }

  ghost function EntryAt(timeline: Timeline, o: Observation, e: AdminEntry, t: nat): AdminEntry {
    e.(mode := FileMode(e.mode.kind, At(timeline(t), o.info.ino).mode))
  }

  /** The log of a reader that came by at these times instead. */
  ghost function Retimed(timeline: Timeline, log: Log, times: seq<nat>): Log
    requires WellFormed(log) && |times| == |log.times|
  {
    Log(seq(|times|, k requires 0 <= k < |times| => ObservedAt(timeline, log.observations[k], times[k])),
        seq(|times|, k requires 0 <= k < |times| => EntryAt(timeline, log.observations[k], log.entries[k], times[k])),
        times, log.parents)
  }

  lemma RetimedRecorded(timeline: Timeline, log: Log, moment: nat, now: nat, times: seq<nat>, to: nat, k: nat)
    requires Lawful(timeline) && Confirmed(timeline, log, moment, now) && Postponed(log, times, to) && to <= moment
    requires k < |log.observations|
    ensures var again := Retimed(timeline, log, times);
            Recorded(timeline, again.observations[k], again.entries[k], times[k])
  {
    assert Recorded(timeline, log.observations[k], log.entries[k], log.times[k]);
    Stood(timeline, log, k, times[k], moment, now);
  }

  lemma RetimedPlaced(timeline: Timeline, log: Log, moment: nat, now: nat, times: seq<nat>, to: nat, k: nat)
    requires Lawful(timeline) && Confirmed(timeline, log, moment, now) && Postponed(log, times, to) && to <= moment
    requires 0 < k < |log.observations|
    ensures Placed(timeline, Retimed(timeline, log, times), k)
  {
    var p := log.parents[k];
    assert Placed(timeline, log, k);
    Stood(timeline, log, p, log.times[k], moment, now);
    Stood(timeline, log, p, times[k], moment, now);
  }

  lemma RetimedComplete(timeline: Timeline, log: Log, moment: nat, now: nat, times: seq<nat>, to: nat, k: nat)
    requires Lawful(timeline) && Confirmed(timeline, log, moment, now) && Postponed(log, times, to) && to <= moment
    requires k < |log.observations|
    ensures Complete(timeline, Retimed(timeline, log, times), k)
  {
    var again := Retimed(timeline, log, times);
    assert Complete(timeline, log, k);
    Stood(timeline, log, k, times[k], moment, now);
    if again.observations[k].directory.Some? {
      forall n <- At(timeline(times[k]), log.observations[k].info.ino).names
        ensures exists j :: ChildOf(again, j, k, n)
      {
        var j :| ChildOf(log, j, k, n);
        assert ChildOf(again, j, k, n);
      }
    }
  }

  lemma RetimedIsSound(timeline: Timeline, log: Log, moment: nat, now: nat, times: seq<nat>, to: nat)
    requires Lawful(timeline) && Confirmed(timeline, log, moment, now) && Postponed(log, times, to) && to <= moment
    ensures Sound(timeline, Retimed(timeline, log, times), to)
  {
    var again := Retimed(timeline, log, times);
    forall k | 0 <= k < |again.observations|
      ensures again.times[k] <= to && Recorded(timeline, again.observations[k], again.entries[k], again.times[k])
    {
      RetimedRecorded(timeline, log, moment, now, times, to, k);
    }
    forall k | 0 < k < |again.observations| ensures Placed(timeline, again, k) {
      RetimedPlaced(timeline, log, moment, now, times, to, k);
    }
  }

  // ---------------------------------------------------------------- the administrative tree

  /** A whole tree, noted at once at `from`, that looks the same at `to`: it stood still, but for permissions that
      returned. */
  ghost predicate StoodStill(timeline: Timeline, log: Log, from: nat, to: nat) {
    && from <= to && Lawful(timeline) && Confirmed(timeline, log, to, to)
    && forall k :: 0 <= k < |log.times| ==> log.times[k] == from
  }

  /** A confirmed log of this tree, begun no earlier than `from`, whose last look was no later than `to`. */
  ghost predicate ReadBetween(timeline: Timeline, log: Log, root: Ino, from: nat, moment: nat, to: nat) {
    && from <= moment <= to && Confirmed(timeline, log, moment, to)
    && NotBefore(log, from) && log.observations[0].info.ino == root
  }

  /** Whatever is read in this stretch is the tree of its moment, with the permissions of that moment. */
  ghost predicate AlwaysTheTree(timeline: Timeline, root: Ino, from: nat, to: nat) {
    forall log, moment {:trigger ReadBetween(timeline, log, root, from, moment, to)} ::
      ReadBetween(timeline, log, root, from, moment, to) ==> IsTree(timeline(moment), root, log.entries, true)
  }

  ghost predicate NothingReturns(timeline: Timeline, root: Ino, from: nat, to: nat) {
    forall moment {:trigger NoneReturns(timeline, root, moment, from, to)} ::
      from <= moment <= to ==> NoneReturns(timeline, root, moment, from, to)
  }

  /** Everything up to observation i is noted at `from`, that one at s, and the rest at the moment itself. */
  function AroundTime(k: nat, i: nat, from: nat, s: nat, moment: nat): nat {
    if k < i then from else if k == i then s else moment
  }

  ghost function AroundOne(count: nat, i: nat, from: nat, s: nat, moment: nat): seq<nat> {
    seq(count, k requires 0 <= k < count => AroundTime(k, i, from, s, moment))
  }

  /** Every object looks then as it does at some time from the moment on. */
  lemma LooksTheSame(timeline: Timeline, o: Ino, k: nat, i: nat, from: nat, s: nat, moment: nat, u: nat, to: nat)
      returns (v: nat)
    requires Lawful(timeline) && from <= s <= moment <= u <= to
    requires SameInfo(StatOf(timeline(from), o), StatOf(timeline(to), o))
             && (k == i ==> Returns(timeline, o, s, moment, u))
    ensures moment <= v <= to
    ensures SameInfo(StatOf(timeline(AroundTime(k, i, from, s, moment)), o), StatOf(timeline(v), o))
  {
    assert Evolves(timeline(s), timeline(u));
    v := if k < i then to else if k == i then u else moment;
  }

  lemma AroundOneConfirmed(timeline: Timeline, still: Log, from: nat, to: nat, i: nat, s: nat, moment: nat, u: nat)
    requires StoodStill(timeline, still, from, to) && i < |still.observations|
    requires from <= s <= moment <= u <= to && Returns(timeline, still.observations[i].info.ino, s, moment, u)
    ensures Confirmed(timeline, Retimed(timeline, still, AroundOne(|still.times|, i, from, s, moment)), moment, to)
  {
    var times := AroundOne(|still.times|, i, from, s, moment);
    var log := Retimed(timeline, still, times);
    assert Postponed(still, times, moment);
    RetimedIsSound(timeline, still, to, to, times, moment);
    forall k | 0 <= k < |log.observations|
      ensures Complete(timeline, log, k) && SeenAgain(timeline, log, k, moment, to)
    {
      RetimedComplete(timeline, still, to, to, times, moment, k);
      SeenAround(timeline, still, from, to, i, s, moment, u, k);
    }
  }

  lemma SeenAround(timeline: Timeline, still: Log, from: nat, to: nat, i: nat, s: nat, moment: nat, u: nat, k: nat)
    requires StoodStill(timeline, still, from, to) && i < |still.observations| && k < |still.observations|
    requires from <= s <= moment <= u <= to && Returns(timeline, still.observations[i].info.ino, s, moment, u)
    ensures SeenAgain(timeline, Retimed(timeline, still, AroundOne(|still.times|, i, from, s, moment)), k, moment, to)
  {
    assert Recorded(timeline, still.observations[k], still.entries[k], still.times[k])
           && SeenAgain(timeline, still, k, to, to);
    var v := LooksTheSame(timeline, still.observations[k].info.ino, k, i, from, s, moment, u, to);
    SeenIfTheSame(timeline, still, AroundOne(|still.times|, i, from, s, moment), k, moment, v, to);
  }

  lemma SeenIfTheSame(timeline: Timeline, log: Log, times: seq<nat>, k: nat, moment: nat, u: nat, to: nat)
    requires WellFormed(log) && |times| == |log.times| && k < |times| && moment <= u <= to
    requires var i := log.observations[k].info.ino; SameInfo(StatOf(timeline(times[k]), i), StatOf(timeline(u), i))
    ensures SeenAgain(timeline, Retimed(timeline, log, times), k, moment, to)
  {
    assert SameInfo(Retimed(timeline, log, times).observations[k].info,
                    StatOf(timeline(u), log.observations[k].info.ino));
  }

  /** An entry with other permissions than its object has is not of the tree: no other names have its path. */
  lemma WrongModeIsNoTree(timeline: Timeline, log: Log, moment: nat, now: nat, k: nat)
    requires Lawful(timeline) && Confirmed(timeline, log, moment, now) && k < |log.observations|
    requires log.entries[k].mode.permissions != At(timeline(moment), log.observations[k].info.ino).mode
    ensures !IsTree(timeline(moment), log.observations[0].info.ino, log.entries, true)
  {
    var fs, root, e := timeline(moment), log.observations[0].info.ino, log.entries[k];
    var names := NothingExtra(timeline, log, moment, now, k);
    assert Recorded(timeline, log.observations[k], e, log.times[k]);
    if Genuine(fs, root, e, true) {
      var others: seq<string> :| Walk(fs, root, others).Some? && EntryFor(e, others,
                                                                          At(fs, Walk(fs, root, others).value), true);
      var _ := NothingMissing(timeline, log, moment, now, others);
      PathOfInjective(names, others);
    }
    assert e in log.entries;
  }

  lemma ObservedInTree(timeline: Timeline, log: Log, moment: nat, now: nat, i: Ino) returns (k: nat)
    requires Lawful(timeline) && Confirmed(timeline, log, moment, now)
    requires InTree(timeline(moment), log.observations[0].info.ino, i)
    ensures k < |log.observations| && log.observations[k].info.ino == i
  {
    var names: seq<string> :| Walk(timeline(moment), log.observations[0].info.ino, names) == Some(i);
    k := NothingMissing(timeline, log, moment, now, names);
  }

  /** Permissions that return are missed by some confirmed log. */
  lemma ReturnIsMissed(timeline: Timeline, still: Log, from: nat, to: nat, i: Ino, s: nat, moment: nat, u: nat)
      returns (log: Log)
    requires StoodStill(timeline, still, from, to) && InTree(timeline(moment), still.observations[0].info.ino, i)
    requires from <= s && u <= to && Returns(timeline, i, s, moment, u)
    ensures ReadBetween(timeline, log, still.observations[0].info.ino, from, moment, to)
    ensures !IsTree(timeline(moment), still.observations[0].info.ino, log.entries, true)
  {
    StillConfirmed(timeline, still, from, to, moment);
    var k := ObservedInTree(timeline, still, moment, to, i);
    log := Retimed(timeline, still, AroundOne(|still.times|, k, from, s, moment));
    AroundOneConfirmed(timeline, still, from, to, k, s, moment, u);
    WrongModeIsNoTree(timeline, log, moment, to, k);
  }

  lemma StillConfirmed(timeline: Timeline, still: Log, from: nat, to: nat, moment: nat)
    requires StoodStill(timeline, still, from, to) && from <= moment <= to
    ensures Confirmed(timeline, still, moment, to)
  {
    forall k | 0 <= k < |still.observations|
      ensures Complete(timeline, still, k) && SeenAgain(timeline, still, k, moment, to)
    {
      assert Complete(timeline, still, k) && SeenAgain(timeline, still, k, to, to);
    }
  }

  /** The exact condition. Over a stretch in which the tree stood still, everything that can be read is right about
      permissions if and only if nowhere in the tree permissions go away and come back. */
  lemma ModesRightExactlyWhenNothingReturns(timeline: Timeline, still: Log, from: nat, to: nat)
    requires StoodStill(timeline, still, from, to)
    ensures AlwaysTheTree(timeline, still.observations[0].info.ino, from, to)
       <==> NothingReturns(timeline, still.observations[0].info.ino, from, to)
  {
    var root := still.observations[0].info.ino;
    if NothingReturns(timeline, root, from, to) {
      forall log, moment | ReadBetween(timeline, log, root, from, moment, to)
        ensures IsTree(timeline(moment), root, log.entries, true)
      {
        assert NoneReturns(timeline, root, moment, from, to);
        ConfirmedIsTree(timeline, log, from, moment, to, true);
      }
    } else {
      var moment: nat :| from <= moment <= to && !NoneReturns(timeline, root, moment, from, to);
      var i :| InTree(timeline(moment), root, i) && !NeverReturns(timeline, i, moment, from, to);
      var s: nat, u: nat :| from <= s && u <= to && Returns(timeline, i, s, moment, u);
      var log := ReturnIsMissed(timeline, still, from, to, i, s, moment, u);
    }
  }

  /** What the theorem asks for is there whenever anything can be read at all: the confirmed log, noted at its
      moment. */
  lemma ConfirmedStoodStill(timeline: Timeline, log: Log, moment: nat, now: nat) returns (still: Log)
    requires Lawful(timeline) && Confirmed(timeline, log, moment, now)
    ensures StoodStill(timeline, still, moment, moment)
            && still.observations[0].info.ino == log.observations[0].info.ino
  {
    var times := seq(|log.times|, k => moment);
    still := Retimed(timeline, log, times);
    RetimedIsSound(timeline, log, moment, now, times, moment);
    forall k | 0 <= k < |still.observations|
      ensures Complete(timeline, still, k) && SeenAgain(timeline, still, k, moment, moment)
    {
      RetimedComplete(timeline, log, moment, now, times, moment, k);
      assert SameInfo(still.observations[k].info, StatOf(timeline(moment), still.observations[k].info.ino));
    }
  }

  /** An empty directory needs nothing else: on every lawful timeline, permissions of it that return can be missed. */
  lemma EmptyDirectoryMissed(timeline: Timeline, i: Ino, s: nat, moment: nat, u: nat) returns (log: Log)
    requires Lawful(timeline) && Returns(timeline, i, s, moment, u)
    requires At(timeline(s), i).kind == Directory && At(timeline(s), i).names == map[]
    ensures ReadBetween(timeline, log, i, s, moment, u) && !IsTree(timeline(moment), i, log.entries, true)
  {
    assert Evolves(timeline(s), timeline(u)) && Evolves(timeline(s), timeline(s));
    var h, info := Handle(0, i), StatOf(timeline(s), i);
    var still := Log([Observation(".", ".", h, Some(h), info)], [AdminEntry(".", "directory", ModeOf(info), None)],
                     [s], [0]);
    assert Complete(timeline, still, 0);
    assert SameInfo(still.observations[0].info, StatOf(timeline(u), i));
    assert SeenAgain(timeline, still, 0, u, u);
    assert Walk(timeline(moment), i, []) == Some(i);
    log := ReturnIsMissed(timeline, still, s, u, i, s, moment, u);
  }

  // ---------------------------------------------------------------- the requested files

  /** All requested objects, noted at once at `from` under clean keys, that look the same at `to`. */
  ghost predicate TraceStoodStill(timeline: Timeline, text: Bytes -> string, trace: Untracked.Trace, from: nat,
                                  to: nat) {
    && from <= to && Untracked.Settled(timeline, text, trace, to, to)
    && (forall k :: 0 <= k < |trace.times| ==> trace.times[k] == from == trace.readTimes[k])
    && (forall k :: 0 < k < |trace.keys| ==> Selection.Clean(trace.keys[k]))
  }

  /** A settled trace of the same request below the same root, begun no earlier than `from`. */
  ghost predicate RequestedBetween(timeline: Timeline, text: Bytes -> string, still: Untracked.Trace,
                                   trace: Untracked.Trace,
                                   from: nat, moment: nat, to: nat) {
    && from <= moment <= to && Untracked.Settled(timeline, text, trace, moment, to)
    && |still.observations| > 0 && trace.keys == still.keys
    && trace.observations[0].info.ino == still.observations[0].info.ino
    && from <= trace.times[0]
  }

  ghost predicate AlwaysAsHeld(timeline: Timeline, text: Bytes -> string, still: Untracked.Trace, from: nat, to: nat)
    requires |still.observations| > 0
  {
    forall trace, moment {:trigger RequestedBetween(timeline, text, still, trace, from, moment, to)} ::
      RequestedBetween(timeline, text, still, trace, from, moment, to) ==>
        Untracked.AllHeld(timeline(moment), still.observations[0].info.ino, text, trace.entries, true)
  }

  /** None of the requested objects has permissions that return; the root itself is not requested. */
  ghost predicate NoRequestedReturns(timeline: Timeline, still: Untracked.Trace, from: nat, to: nat) {
    forall k, moment {:trigger NeverReturns(timeline, still.observations[k].info.ino, moment, from, to)} ::
      0 < k < |still.observations| && from <= moment <= to ==>
          NeverReturns(timeline, still.observations[k].info.ino, moment, from, to)
  }

  ghost function TraceEntryAt(timeline: Timeline, trace: Untracked.Trace, j: nat, t: nat): UntrackedEntry
    requires Untracked.Aligned(trace) && j < |trace.entries|
  {
    var e := trace.entries[j];
    e.(mode := ModeOf(StatOf(timeline(t), trace.observations[j + 1].info.ino)))
  }

  /** The trace of a reader that came by at these times instead, and read every link at once. */
  ghost function TraceRetimed(timeline: Timeline, trace: Untracked.Trace, times: seq<nat>): Untracked.Trace
    requires Untracked.Aligned(trace) && |times| == |trace.times|
  {
    Untracked.Trace(
      seq(|times|, k requires 0 <= k < |times| =>
            trace.observations[k].(info := StatOf(timeline(times[k]), trace.observations[k].info.ino))),
      seq(|trace.entries|, j requires 0 <= j < |trace.entries| => TraceEntryAt(timeline, trace, j, times[j + 1])),
      trace.keys, times, times, trace.parents)
  }

  /** Times for the observations of a trace, none before its own and none before that of its directory. */
  ghost predicate TracePostponed(trace: Untracked.Trace, times: seq<nat>, k: nat, to: nat) {
    && |times| == |trace.times| && k < |times| && trace.times[k] <= times[k] <= to
    && forall p :: 0 <= p < k ==> trace.times[p] <= times[p] <= times[k]
  }

  lemma TraceRetimedNoted(timeline: Timeline, text: Bytes -> string, trace: Untracked.Trace, moment: nat, now: nat,
                          times: seq<nat>, to: nat, k: nat)
    requires Untracked.Settled(timeline, text, trace, moment, now) && k < |trace.observations|
    requires TracePostponed(trace, times, k, to) && to <= moment
    ensures Untracked.NotedAt(timeline, text, TraceRetimed(timeline, trace, times), k, to)
  {
    if k > 0 {
      TracePlacedAt(timeline, text, trace, moment, now, times, to, k);
      TraceEntryRetimed(timeline, text, trace, moment, now, times[k], k);
    }
  }

  lemma TracePlacedAt(timeline: Timeline, text: Bytes -> string, trace: Untracked.Trace, moment: nat, now: nat,
                      times: seq<nat>, to: nat, k: nat)
    requires Untracked.Settled(timeline, text, trace, moment, now) && 0 < k < |trace.observations|
    requires TracePostponed(trace, times, k, to) && to <= moment
    ensures Untracked.PlacedIn(timeline, TraceRetimed(timeline, trace, times), k)
  {
    var p := trace.parents[k];
    assert Untracked.NotedAt(timeline, text, trace, k, moment) && Untracked.NotedAt(timeline, text, trace, p, moment);
    Untracked.StoodStill(timeline, text, trace, p, trace.times[k], moment, now);
    Untracked.StoodStill(timeline, text, trace, p, times[k], moment, now);
    LaterKind(timeline, text, trace, moment, now, p, times[p]);
  }

  lemma LaterKind(timeline: Timeline, text: Bytes -> string, trace: Untracked.Trace, moment: nat, now: nat, k: nat,
                  t: nat)
    requires Untracked.Settled(timeline, text, trace, moment, now) && k < |trace.observations|
    requires trace.times[k] <= t <= moment
    ensures At(timeline(t), trace.observations[k].info.ino).kind == trace.observations[k].info.kind
  {
    assert Untracked.NotedAt(timeline, text, trace, k, moment);
    Untracked.StoodStill(timeline, text, trace, k, t, moment, now);
  }

  /** The name led to the object then as well. */
  lemma LaterBound(timeline: Timeline, text: Bytes -> string, trace: Untracked.Trace, moment: nat, now: nat, k: nat,
                   t: nat)
    requires Untracked.Settled(timeline, text, trace, moment, now) && 0 < k < |trace.observations|
    requires trace.times[k] <= t <= moment
    ensures var o := trace.observations[k]; Bound(timeline(t), o.parent.ino, o.name, o.info.ino)
  {
    var p := trace.parents[k];
    assert Untracked.NotedAt(timeline, text, trace, k, moment) && Untracked.NotedAt(timeline, text, trace, p, moment);
    Untracked.StoodStill(timeline, text, trace, p, trace.times[k], moment, now);
    Untracked.StoodStill(timeline, text, trace, p, t, moment, now);
  }

  lemma TraceEntryRetimed(timeline: Timeline, text: Bytes -> string, trace: Untracked.Trace, moment: nat, now: nat,
                          t: nat, k: nat)
    requires Untracked.Settled(timeline, text, trace, moment, now) && 0 < k < |trace.observations|
    requires trace.times[k] <= t <= moment
    ensures var o := trace.observations[k].(info := StatOf(timeline(t), trace.observations[k].info.ino));
            Untracked.EntryOf(timeline, text, o, TraceEntryAt(timeline, trace, k - 1, t), t, t)
  {
    assert Untracked.NotedAt(timeline, text, trace, k, moment);
    Untracked.StoodStill(timeline, text, trace, k, t, moment, now);
    Untracked.StoodStill(timeline, text, trace, k, moment, moment, now);
    LaterBound(timeline, text, trace, moment, now, k, t);
    if trace.observations[k].info.kind == Symlink { Untracked.LinkHeld(timeline, text, trace, moment, now, k); }
  }

  lemma TraceSeenAround(timeline: Timeline, text: Bytes -> string, trace: Untracked.Trace, from: nat, to: nat,
                        i: nat, s: nat, moment: nat, u: nat, k: nat)
    requires TraceStoodStill(timeline, text, trace, from, to) && i < |trace.observations| && k < |trace.observations|
    requires from <= s <= moment <= u <= to && Returns(timeline, trace.observations[i].info.ino, s, moment, u)
    ensures Untracked.SeenTwice(timeline, TraceRetimed(timeline, trace, AroundOne(|trace.times|, i, from, s, moment)),
                                k, moment, to)
  {
    var again := TraceRetimed(timeline, trace, AroundOne(|trace.times|, i, from, s, moment));
    assert Untracked.NotedAt(timeline, text, trace, k, to) && Untracked.SeenTwice(timeline, trace, k, to, to);
    var v := LooksTheSame(timeline, trace.observations[k].info.ino, k, i, from, s, moment, u, to);
    assert SameInfo(again.observations[k].info, StatOf(timeline(v), trace.observations[k].info.ino));
  }

  lemma TraceAroundOne(timeline: Timeline, text: Bytes -> string, still: Untracked.Trace, from: nat, to: nat,
                       i: nat, s: nat, moment: nat, u: nat)
    requires TraceStoodStill(timeline, text, still, from, to) && i < |still.observations|
    requires from <= s <= moment <= u <= to && Returns(timeline, still.observations[i].info.ino, s, moment, u)
    ensures var again := TraceRetimed(timeline, still, AroundOne(|still.times|, i, from, s, moment));
            RequestedBetween(timeline, text, still, again, from, moment, to)
  {
    var times := AroundOne(|still.times|, i, from, s, moment);
    var again := TraceRetimed(timeline, still, times);
    forall k: nat | k < |again.observations| ensures Untracked.NotedAt(timeline, text, again, k, moment) {
      TraceRetimedNoted(timeline, text, still, to, to, times, moment, k);
    }
    forall k: nat | k < |again.observations| ensures Untracked.SeenTwice(timeline, again, k, moment, to) {
      TraceSeenAround(timeline, text, still, from, to, i, s, moment, u, k);
    }
  }

  /** Permissions of a requested object that return are missed by some settled trace. */
  lemma RequestedReturnIsMissed(timeline: Timeline, text: Bytes -> string, still: Untracked.Trace, from: nat, to: nat,
                                i: nat, s: nat, moment: nat, u: nat) returns (trace: Untracked.Trace)
    requires TraceStoodStill(timeline, text, still, from, to) && 0 < i < |still.observations|
    requires from <= s && u <= to && Returns(timeline, still.observations[i].info.ino, s, moment, u)
    ensures RequestedBetween(timeline, text, still, trace, from, moment, to)
    ensures !Untracked.AllHeld(timeline(moment), still.observations[0].info.ino, text, trace.entries, true)
  {
    trace := TraceRetimed(timeline, still, AroundOne(|still.times|, i, from, s, moment));
    TraceAroundOne(timeline, text, still, from, to, i, s, moment, u);
    assert Untracked.NotedAt(timeline, text, trace, i, moment);
    Untracked.KeysLead(timeline, text, trace, moment, to, i);
    SplitJoin(trace.keys[i], '/');
    var e := trace.entries[i - 1];
    assert e in trace.entries && e.mode.permissions == At(timeline(s), still.observations[i].info.ino).mode;
    assert !Untracked.HeldAt(timeline(moment), still.observations[0].info.ino, text, e, true);
  }

  lemma RequestedHeld(timeline: Timeline, text: Bytes -> string, still: Untracked.Trace, trace: Untracked.Trace,
                      from: nat, moment: nat, to: nat)
    requires TraceStoodStill(timeline, text, still, from, to)
             && RequestedBetween(timeline, text, still, trace, from, moment, to)
    requires NoRequestedReturns(timeline, still, from, to)
    ensures Untracked.AllHeld(timeline(moment), still.observations[0].info.ino, text, trace.entries, true)
  {
    var root := still.observations[0].info.ino;
    StillSettled(timeline, text, still, from, to, moment);
    forall e | e in trace.entries ensures Untracked.HeldAt(timeline(moment), root, text, e, true) {
      var j :| 0 <= j < |trace.entries| && trace.entries[j] == e;
      var k := j + 1;
      Untracked.KeysLead(timeline, text, trace, moment, to, k);
      Untracked.KeysLead(timeline, text, still, moment, to, k);
      Untracked.NotBeforeFirst(timeline, text, trace, moment, k);
      assert NeverReturns(timeline, still.observations[k].info.ino, moment, from, to);
      Untracked.SettledEntryHeld(timeline, text, trace, from, moment, to, k, true);
    }
  }

  lemma StillSettled(timeline: Timeline, text: Bytes -> string, still: Untracked.Trace, from: nat, to: nat, moment: nat)
    requires TraceStoodStill(timeline, text, still, from, to) && from <= moment <= to
    ensures Untracked.Settled(timeline, text, still, moment, to)
  {
    forall k: nat | k < |still.observations| ensures Untracked.NotedAt(timeline, text, still, k, moment) {
      assert Untracked.NotedAt(timeline, text, still, k, to);
    }
    forall k: nat | k < |still.observations| ensures Untracked.SeenTwice(timeline, still, k, moment, to) {
      assert Untracked.SeenTwice(timeline, still, k, to, to);
    }
  }

  /** The exact condition for the requested files: what is read in a stretch in which they stood still is right about
      permissions if and only if none of them has permissions that go away and come back. */
  lemma RequestedModesRightExactlyWhenNoneReturns(timeline: Timeline, text: Bytes -> string, still: Untracked.Trace,
                                                  from: nat, to: nat)
    requires TraceStoodStill(timeline, text, still, from, to)
    ensures AlwaysAsHeld(timeline, text, still, from, to) <==> NoRequestedReturns(timeline, still, from, to)
  {
    if NoRequestedReturns(timeline, still, from, to) {
      forall trace, moment | RequestedBetween(timeline, text, still, trace, from, moment, to)
        ensures Untracked.AllHeld(timeline(moment), still.observations[0].info.ino, text, trace.entries, true)
      {
        RequestedHeld(timeline, text, still, trace, from, moment, to);
      }
    } else {
      var k, moment: nat :| 0 < k < |still.observations| && from <= moment <= to
                            && !NeverReturns(timeline, still.observations[k].info.ino, moment, from, to);
      var s: nat, u: nat :| from <= s && u <= to && Returns(timeline, still.observations[k].info.ino, s, moment, u);
      var trace := RequestedReturnIsMissed(timeline, text, still, from, to, k, s, moment, u);
    }
  }

  /** What the theorem asks for is there whenever anything can be read at all: the settled trace, noted at its
      moment. */
  lemma SettledStoodStill(timeline: Timeline, text: Bytes -> string, trace: Untracked.Trace, moment: nat, now: nat)
    returns (still: Untracked.Trace)
    requires Untracked.Settled(timeline, text, trace, moment, now)
    requires forall k :: 0 < k < |trace.keys| ==> Selection.Clean(trace.keys[k])
    ensures TraceStoodStill(timeline, text, still, moment, moment) && still.keys == trace.keys
    ensures still.observations[0].info.ino == trace.observations[0].info.ino
  {
    var times := seq(|trace.times|, k => moment);
    still := TraceRetimed(timeline, trace, times);
    forall k: nat | k < |still.observations| ensures Untracked.NotedAt(timeline, text, still, k, moment) {
      forall p: nat | p <= k ensures trace.times[p] <= moment {
        assert Untracked.NotedAt(timeline, text, trace, p, moment);
      }
      TraceRetimedNoted(timeline, text, trace, moment, now, times, moment, k);
    }
    forall k: nat | k < |still.observations| ensures Untracked.SeenTwice(timeline, still, k, moment, moment) {
      assert SameInfo(still.observations[k].info, StatOf(timeline(moment), trace.observations[k].info.ino));
    }
  }
}
