/**
 The operational state of one person: a compare-and-swap of the person row against the
 snapshot a decision was based on, and an event appended to the timeline in the same
 transaction. Service, job and enforcement engine race with snapshots of any age.
 */
module OperationalState {
  import opened Base

  datatype StateValue = NORMAL | WARNING | RESTRICTED | SUSPENDED

  datatype Person = Person(
    active: bool, state: StateValue, riskScore: int, updatedAt: Option<int>, legacyRiskScore: int)

  /** What the caller read; the legacy score only when its query selected it. */
  datatype Snapshot = Snapshot(state: StateValue, riskScore: int, updatedAt: Option<int>, legacyRiskScore: Option<int>)

  /** `extra` is what the caller's own metadata holds under `state`, if anything. */
  datatype Decision = Decision(
    nextState: StateValue, riskScore: int, nextLegacy: Option<int>, evaluatedAt: int, extra: Value)

  /** A JSON value of the metadata: missing or null, a string, or anything else. */
  datatype Value = Absent | Text(text: string) | OtherValue

  /** What a state-change event carries; older events may name the state differently, or not at all. */
  datatype Metadata = NoObject | Fields(from: Value, to: Value, state: Value)

  datatype Event = Event(metadata: Metadata)

  datatype Result = Result(claimed: bool, changed: bool, from: Option<StateValue>, to: StateValue)

  function Name(v: StateValue): string {
    match v
    case NORMAL => "NORMAL"
    case WARNING => "WARNING"
    case RESTRICTED => "RESTRICTED"
    case SUSPENDED => "SUSPENDED"
  }

  /** The state a value names; every other string, and every other value, names none. */
  function Named(v: Value): Option<StateValue> {
    if v == Text("NORMAL") then Some(NORMAL)
    else if v == Text("WARNING") then Some(WARNING)
    else if v == Text("RESTRICTED") then Some(RESTRICTED)
    else if v == Text("SUSPENDED") then Some(SUSPENDED)
    else None
  }

  /** Where an event moved to: `to`, or `state` when `to` is missing. */
  function ToOf(e: Event): Option<StateValue> {
    match e.metadata
    case NoObject => None
    case Fields(_, to, state) => Named(if to.Absent? then state else to)
  }

  function FromOf(e: Event): Option<StateValue> {
    match e.metadata case NoObject => None case Fields(from, _, _) => Named(from)
  }

  function LastState(timeline: seq<Event>): Option<StateValue> {
    if timeline == [] then None else ToOf(timeline[|timeline| - 1])
  }

  /** The event names the state, in one of the two places. */
  predicate Says(e: Event, v: StateValue) {
    && e.metadata.Fields?
    && (e.metadata.to == Text(Name(v)) || (e.metadata.to.Absent? && e.metadata.state == Text(Name(v))))
  }

  lemma NamesAreRead(value: Value, v: StateValue)
    ensures Named(value) == Some(v) <==> value == Text(Name(v))
  {
    // no two of the four names start alike
    assert "NORMAL"[0] == 'N' && "WARNING"[0] == 'W' && "RESTRICTED"[0] == 'R' && "SUSPENDED"[0] == 'S';
  }

  /** The event that a transition appends. */
  function Change(last: Option<StateValue>, d: Decision): Event {
    Event(Fields(Text(if last.Some? then Name(last.value) else "UNKNOWN"), Text(Name(d.nextState)), d.extra))
  }

  /** It reads back as it was meant, whatever metadata the caller adds. */
  lemma ChangeReadsBack(last: Option<StateValue>, d: Decision)
    ensures FromOf(Change(last, d)) == last && ToOf(Change(last, d)) == Some(d.nextState)
  {
    NamesAreRead(Text(Name(d.nextState)), d.nextState);
    if last.Some? { NamesAreRead(Text(Name(last.value)), last.value); }
  }

  function Read(p: Person, withLegacy: bool): Snapshot {
    Snapshot(p.state, p.riskScore, p.updatedAt, if withLegacy then Some(p.legacyRiskScore) else None)
  }

  // ---------------------------------------------------------------- the operation

  /** Nothing to do: the timeline was seen to end in the next state and the snapshot already agrees. */
  predicate FastPath(snap: Snapshot, d: Decision, observed: Option<StateValue>) {
    && observed == Some(d.nextState)
    && snap.state == d.nextState && snap.riskScore == d.riskScore && snap.updatedAt.Some?
    && (d.nextLegacy.None? || snap.legacyRiskScore == d.nextLegacy)
  }

  predicate Matches(p: Person, snap: Snapshot, d: Decision) {
    && p.active
    && p.state == snap.state && p.riskScore == snap.riskScore && p.updatedAt == snap.updatedAt
    && (d.nextLegacy.Some? && snap.legacyRiskScore.Some? ==> p.legacyRiskScore == snap.legacyRiskScore.value)
  }

  function Claimed(p: Person, d: Decision): Person {
    Person(p.active, d.nextState, d.riskScore, Some(d.evaluatedAt),
           if d.nextLegacy.Some? then d.nextLegacy.value else p.legacyRiskScore)
  }

  function Appended(timeline: seq<Event>, d: Decision): seq<Event> {
    if LastState(timeline) == Some(d.nextState) then timeline
    else timeline + [Change(LastState(timeline), d)]
  }

  // ---------------------------------------------------------------- protocol

  datatype Phase =
    | Idle
    | Holding(snap: Snapshot, version: nat)
    | Observed(snap: Snapshot, version: nat, decision: Decision, seen: Option<StateValue>)
    | Done(result: Result)

  /** What a claim compares and writes: state, score and stamp. */
  datatype Mark = Mark(state: StateValue, riskScore: int, updatedAt: Option<int>)

  function MarkOf(p: Person): Mark { Mark(p.state, p.riskScore, p.updatedAt) }

  function Seen(snap: Snapshot): Mark { Mark(snap.state, snap.riskScore, snap.updatedAt) }

  function Written(d: Decision): Mark { Mark(d.nextState, d.riskScore, Some(d.evaluatedAt)) }

  /** `history` lists the marks the row has carried; its length counts the claims. */
  datatype State = State(
    person: Person, timeline: seq<Event>, history: seq<Mark>, actors: map<string, Phase>)

  datatype Action =
    | ReadSnapshot(actor: string, withLegacy: bool)
    | Observe(actor: string, decision: Decision)
    | Transact(actor: string)
    | RollBack(actor: string)
    // other code that writes the person row
    | SetActive(active: bool)
    | SetLegacy(score: int)

  function PhaseOf(s: State, a: string): Phase { if a in s.actors then s.actors[a] else Idle }

  function Start(p: Person, timeline: seq<Event>): State { State(p, timeline, [MarkOf(p)], map[]) }

  function Version(s: State): nat { if s.history == [] then 0 else |s.history| - 1 }

  predicate Wins(s: State, a: string) {
    PhaseOf(s, a).Observed? && Matches(s.person, PhaseOf(s, a).snap, PhaseOf(s, a).decision)
  }

  function TransactStep(s: State, a: string): State
    requires PhaseOf(s, a).Observed?
  {
    var p := PhaseOf(s, a);
    var d := p.decision;
    if !Wins(s, a) then s.(actors := s.actors[a := Done(Result(false, false, p.seen, d.nextState))])
    else
      var last := LastState(s.timeline);
      State(Claimed(s.person, d), Appended(s.timeline, d), s.history + [Written(d)],
            s.actors[a := Done(Result(true, last != Some(d.nextState), last, d.nextState))])
  }

  function Step(s: State, act: Action): State {
    match act
    case ReadSnapshot(a, withLegacy) => s.(actors := s.actors[a := Holding(Read(s.person, withLegacy), Version(s))])
    case Observe(a, d) =>
      var p := PhaseOf(s, a);
      if !p.Holding? then s
      else
        var seen := LastState(s.timeline);
        s.(actors := s.actors[a :=
             if FastPath(p.snap, d, seen) then Done(Result(false, false, seen, d.nextState))
             else Observed(p.snap, p.version, d, seen)])
    case Transact(a) => if PhaseOf(s, a).Observed? then TransactStep(s, a) else s
    case RollBack(a) => s.(actors := s.actors[a := Idle])
    case SetActive(b) => s.(person := s.person.(active := b))
    case SetLegacy(v) => s.(person := s.person.(legacyRiskScore := v))
  }

  function Run(s: State, acts: seq<Action>): State {
    if |acts| == 0 then s else Step(Run(s, acts[..|acts| - 1]), acts[|acts| - 1])
  }

  // ---------------------------------------------------------------- theorems

  /** From position n on, every event starts where the timeline stood and moves somewhere else. */
  ghost predicate ChainFrom(timeline: seq<Event>, n: nat) {
    forall i {:trigger timeline[i]} :: n <= i < |timeline| ==>
      && FromOf(timeline[i]) == LastState(timeline[..i])
      && ToOf(timeline[i]).Some? && FromOf(timeline[i]) != ToOf(timeline[i])
  }

  /** In every run, over any timeline that was there before, the appended events form a chain. */
  lemma {:induction false} TimelineIsAChain(p: Person, timeline: seq<Event>, acts: seq<Action>)
    ensures var t := Run(Start(p, timeline), acts).timeline;
            timeline <= t && ChainFrom(t, |timeline|)
  {
    if |acts| > 0 {
      var less, last := acts[..|acts| - 1], acts[|acts| - 1];
      TimelineIsAChain(p, timeline, less);
      var s, s' := Run(Start(p, timeline), less), Run(Start(p, timeline), acts);
      if s'.timeline != s.timeline {
        var n := |s.timeline|;
        ChangeReadsBack(LastState(s.timeline), PhaseOf(s, last.actor).decision);
        assert s'.timeline[..n] == s.timeline;
        forall i | |timeline| <= i < n ensures s'.timeline[..i] == s.timeline[..i] {}
      }
    }
  }

  /** Read pairwise: in a chain each `from` is the `to` before it. */
  lemma ChainLinks(timeline: seq<Event>, n: nat, i: nat)
    requires ChainFrom(timeline, n) && n <= i && 0 < i < |timeline|
    ensures FromOf(timeline[i]) == ToOf(timeline[i - 1]) && ToOf(timeline[i]) != ToOf(timeline[i - 1])
  {
    assert timeline[..i][i - 1] == timeline[i - 1];
  }

  /**
   Every outcome of the transaction. It claims exactly when the person is active and still
   carries the state, score and stamp of the snapshot (and the legacy score, if both sides have
   one). A claim writes the decision and keeps the rest: the legacy score only when the decision
   has one, never whether the person is active. It leaves row and timeline agreeing on the next
   state, even if they disagreed before, and appends exactly when the timeline did not end
   there yet; a lost race changes nothing.
   */
  lemma TransactionOutcome(s: State, a: string)
    requires PhaseOf(s, a).Observed?
    ensures var snap, d, s' := PhaseOf(s, a).snap, PhaseOf(s, a).decision, Step(s, Transact(a));
            && PhaseOf(s', a).Done? && (forall b :: b != a ==> PhaseOf(s', b) == PhaseOf(s, b))
            && var r, p, p' := PhaseOf(s', a).result, s.person, s'.person;
            && r.to == d.nextState
            && (r.claimed <==>
                  && p.active && p.state == snap.state && p.riskScore == snap.riskScore
                  && p.updatedAt == snap.updatedAt
                  && (d.nextLegacy.Some? && snap.legacyRiskScore.Some? ==>
                        p.legacyRiskScore == snap.legacyRiskScore.value))
            && (r.claimed ==>
                  && p'.state == d.nextState && p'.riskScore == d.riskScore && p'.updatedAt == Some(d.evaluatedAt)
                  && (d.nextLegacy.Some? ==> p'.legacyRiskScore == d.nextLegacy.value)
                  && (d.nextLegacy.None? ==> p'.legacyRiskScore == p.legacyRiskScore)
                  && p'.active == p.active
                  && s'.history == s.history + [Mark(d.nextState, d.riskScore, Some(d.evaluatedAt))]
                  && r.from == LastState(s.timeline) && LastState(s'.timeline) == Some(d.nextState)
                  && (r.changed <==> LastState(s.timeline) != Some(d.nextState))
                  && (r.changed ==> Extends(s.timeline, s'.timeline, d))
                  && (!r.changed ==> s'.timeline == s.timeline))
            && (!r.claimed ==>
                  && !r.changed && r.from == PhaseOf(s, a).seen
                  && p' == p && s'.timeline == s.timeline && s'.history == s.history)
  {
    ChangeReadsBack(LastState(s.timeline), PhaseOf(s, a).decision);
  }

  /** One event more: from the state the newest event names, or "UNKNOWN", to the decision's. */
  predicate Extends(timeline: seq<Event>, timeline': seq<Event>, d: Decision) {
    && |timeline'| == |timeline| + 1 && timeline'[..|timeline|] == timeline
    && var metadata := timeline'[|timeline|].metadata;
    && metadata.Fields? && metadata.to == Text(Name(d.nextState)) && metadata.state == d.extra
    && (LastState(timeline).None? ==> metadata.from == Text("UNKNOWN"))
    && (LastState(timeline).Some? ==> metadata.from == Text(Name(LastState(timeline).value)))
  }

  /** The four states and the words for them. */
  lemma StatesAreNamed(v: Value)
    ensures Name(NORMAL) == "NORMAL" && Name(WARNING) == "WARNING"
    ensures Name(RESTRICTED) == "RESTRICTED" && Name(SUSPENDED) == "SUSPENDED"
    ensures Named(v).None? <==>
              v !in [Text("NORMAL"), Text("WARNING"), Text("RESTRICTED"), Text("SUSPENDED")]
    ensures Named(v).Some? ==> v == Text(Name(Named(v).value))
  {}

  /** A snapshot shows the row as it is, and the legacy score exactly when it was selected. */
  lemma SnapshotShowsTheRow(s: State, a: string, withLegacy: bool)
    ensures var s' := Step(s, ReadSnapshot(a, withLegacy));
            && s'.person == s.person && s'.timeline == s.timeline && s'.history == s.history
            && PhaseOf(s', a).Holding?
            && var snap := PhaseOf(s', a).snap;
            && snap.state == s.person.state && snap.riskScore == s.person.riskScore
            && snap.updatedAt == s.person.updatedAt
            && snap.legacyRiskScore == if withLegacy then Some(s.person.legacyRiskScore) else None
  {}

  /**
   The call gives up before its transaction exactly when the timeline was seen to end in the
   next state and the snapshot carries the decision already, with a stamp. If the row still is
   what the snapshot showed, a claim could only have renewed the stamp.
   */
  lemma FastPathExactly(s: State, a: string, d: Decision)
    requires PhaseOf(s, a).Holding?
    ensures var snap, seen, s' := PhaseOf(s, a).snap, LastState(s.timeline), Step(s, Observe(a, d));
            && s'.person == s.person && s'.timeline == s.timeline && s'.history == s.history
            && (PhaseOf(s', a).Done? <==>
                  && seen == Some(d.nextState) && snap.state == d.nextState && snap.riskScore == d.riskScore
                  && snap.updatedAt.Some?
                  && (d.nextLegacy.None? || (snap.legacyRiskScore.Some? && snap.legacyRiskScore == d.nextLegacy)))
            && (PhaseOf(s', a).Done? ==> PhaseOf(s', a).result == Result(false, false, seen, d.nextState))
            && (!PhaseOf(s', a).Done? ==> PhaseOf(s', a) == Observed(snap, PhaseOf(s, a).version, d, seen))
            && (PhaseOf(s', a).Done? && Matches(s.person, snap, d) ==>
                  && Claimed(s.person, d) == s.person.(updatedAt := Some(d.evaluatedAt))
                  && Appended(s.timeline, d) == s.timeline)
  {}

  /** Once somebody has claimed, row and timeline agree for good. */
  lemma {:induction false} AgreeAfterFirstClaim(p: Person, timeline: seq<Event>, acts: seq<Action>)
    ensures var s := Run(Start(p, timeline), acts);
            && |s.history| >= 1
            && (Version(s) > 0 ==> LastState(s.timeline) == Some(s.person.state))
  {
    if |acts| > 0 {
      var s, last := Run(Start(p, timeline), acts[..|acts| - 1]), acts[|acts| - 1];
      AgreeAfterFirstClaim(p, timeline, acts[..|acts| - 1]);
      if last.Transact? && PhaseOf(s, last.actor).Observed? { TransactionOutcome(s, last.actor); }
    }
  }

  /** Every claim of the run writes a mark the row has never carried; a new `evaluatedAt` is enough for that. */
  predicate FreshMarks(s: State, acts: seq<Action>) {
    |acts| == 0
    || (&& FreshMarks(s, acts[..|acts| - 1])
        && var mid, last := Run(s, acts[..|acts| - 1]), acts[|acts| - 1];
           last.Transact? && Wins(mid, last.actor) ==> Written(PhaseOf(mid, last.actor).decision) !in mid.history)
  }

  ghost predicate SnapshotsAreOld(s: State) {
    && |s.history| >= 1 && MarkOf(s.person) == s.history[|s.history| - 1]
    && forall a :: a in s.actors && (s.actors[a].Holding? || s.actors[a].Observed?) ==>
         s.actors[a].version < |s.history| && Seen(s.actors[a].snap) == s.history[s.actors[a].version]
  }

  ghost predicate HistoryInv(s: State) { Distinct(s.history) && SnapshotsAreOld(s) }

  lemma TransactKeepsHistory(s: State, a: string)
    requires HistoryInv(s) && PhaseOf(s, a).Observed?
    requires Wins(s, a) ==> Written(PhaseOf(s, a).decision) !in s.history
    ensures HistoryInv(TransactStep(s, a))
  {}

  lemma StepKeepsHistory(s: State, act: Action)
    requires HistoryInv(s)
    requires act.Transact? && Wins(s, act.actor) ==> Written(PhaseOf(s, act.actor).decision) !in s.history
    ensures HistoryInv(Step(s, act))
  {
    if act.Transact? && PhaseOf(s, act.actor).Observed? { TransactKeepsHistory(s, act.actor); }
  }

  lemma {:induction false} HistoryIsDistinct(p: Person, timeline: seq<Event>, acts: seq<Action>)
    requires FreshMarks(Start(p, timeline), acts)
    ensures HistoryInv(Run(Start(p, timeline), acts))
  {
    if |acts| > 0 {
      HistoryIsDistinct(p, timeline, acts[..|acts| - 1]);
      StepKeepsHistory(Run(Start(p, timeline), acts[..|acts| - 1]), acts[|acts| - 1]);
    }
  }

  /**
   With fresh marks a claim wins exactly when nobody has claimed since its snapshot was read
   (and the person is active, and the legacy score still is what the caller saw, if it looked).
   So a stale decision never overwrites a newer one.
   */
  lemma WinnerIsCurrent(p: Person, timeline: seq<Event>, acts: seq<Action>, a: string)
    requires FreshMarks(Start(p, timeline), acts)
    ensures var s := Run(Start(p, timeline), acts);
            PhaseOf(s, a).Observed? ==>
              var snap, d := PhaseOf(s, a).snap, PhaseOf(s, a).decision;
              (Wins(s, a) <==>
                && PhaseOf(s, a).version == Version(s) && s.person.active
                && (d.nextLegacy.Some? && snap.legacyRiskScore.Some? ==>
                      snap.legacyRiskScore.value == s.person.legacyRiskScore))
  {
    HistoryIsDistinct(p, timeline, acts);
  }

  lemma {:induction false} VersionGrows(s: State, acts: seq<Action>, more: seq<Action>)
    requires |Run(s, acts).history| >= 1
    ensures |Run(s, acts + more).history| >= |Run(s, acts).history|
    decreases |more|
  {
    if |more| == 0 {
      assert acts + more == acts;
    } else {
      assert (acts + more)[..|acts + more| - 1] == acts + more[..|more| - 1];
      VersionGrows(s, acts, more[..|more| - 1]);
    }
  }

  /** One snapshot, however many actors hold it, wins at most one claim. */
  lemma SnapshotWinsOnce(p: Person, timeline: seq<Event>, acts: seq<Action>, a: string, more: seq<Action>, b: string)
    requires FreshMarks(Start(p, timeline), acts + [Transact(a)] + more)
    requires Wins(Run(Start(p, timeline), acts), a)
    requires Wins(Run(Start(p, timeline), acts + [Transact(a)] + more), b)
    ensures PhaseOf(Run(Start(p, timeline), acts), a).version
              < PhaseOf(Run(Start(p, timeline), acts + [Transact(a)] + more), b).version
  {
    var s0 := Start(p, timeline);
    var all := acts + [Transact(a)] + more;
    WinnerIsCurrent(p, timeline, all, b);
    assert acts + ([Transact(a)] + more) == all;
    FreshPrefix(s0, acts, [Transact(a)] + more);
    WinnerIsCurrent(p, timeline, acts, a);
    assert (acts + [Transact(a)])[..|acts|] == acts;
    AgreeAfterFirstClaim(p, timeline, acts);
    AgreeAfterFirstClaim(p, timeline, acts + [Transact(a)]);
    VersionGrows(s0, acts + [Transact(a)], more);
  }

  lemma {:induction false} FreshPrefix(s: State, acts: seq<Action>, more: seq<Action>)
    requires FreshMarks(s, acts + more)
    ensures FreshMarks(s, acts)
    decreases |more|
  {
    if |more| == 0 {
      assert acts + more == acts;
    } else {
      assert (acts + more)[..|acts + more| - 1] == acts + more[..|more| - 1];
      FreshPrefix(s, acts, more[..|more| - 1]);
    }
  }

  /**
   Without fresh marks the guarantee fails: when a later claim brings back state, score and
   stamp, a snapshot two claims old still wins.
   */
  lemma RepeatedMarkLetsAStaleSnapshotWin()
    ensures exists p, acts, a :: Wins(Run(Start(p, []), acts), a)
              && PhaseOf(Run(Start(p, []), acts), a).version < Version(Run(Start(p, []), acts))
  {
    var p := Person(true, NORMAL, 0, Some(5), 0);
    var there, back := Decision(WARNING, 1, None, 6, Absent), Decision(NORMAL, 0, None, 5, Absent);
    var s0 := Start(p, []);
    var a2 := [ReadSnapshot("old", false)] + [Observe("old", there)];
    var a3 := a2 + [ReadSnapshot("b", false)];
    var a4 := a3 + [Observe("b", there)];
    var a5 := a4 + [Transact("b")];
    var a6 := a5 + [ReadSnapshot("c", false)];
    var a7 := a6 + [Observe("c", back)];
    var a8 := a7 + [Transact("c")];
    OneMore(s0, [], ReadSnapshot("old", false));
    OneMore(s0, [ReadSnapshot("old", false)], Observe("old", there));
    OneMore(s0, a2, ReadSnapshot("b", false));
    OneMore(s0, a3, Observe("b", there));
    OneMore(s0, a4, Transact("b"));
    assert Run(s0, a5).person == Person(true, WARNING, 1, Some(6), 0);
    OneMore(s0, a5, ReadSnapshot("c", false));
    OneMore(s0, a6, Observe("c", back));
    OneMore(s0, a7, Transact("c"));
    assert Run(s0, a8).person == p;
    assert Wins(Run(s0, a8), "old") && PhaseOf(Run(s0, a8), "old").version == 0;
  }

  lemma OneMore(s: State, acts: seq<Action>, act: Action)
    ensures Run(s, acts + [act]) == Step(Run(s, acts), act)
    ensures acts == [] ==> acts + [act] == [act]
  {
    assert (acts + [act])[..|acts|] == acts;
  }

  lemma {:induction false} RunAppend(s: State, a: seq<Action>, b: seq<Action>)
    ensures Run(s, a + b) == Run(Run(s, a), b)
    decreases |b|
  {
    if |b| == 0 {
      assert a + b == a;
    } else {
      assert (a + b)[..|a + b| - 1] == a + b[..|b| - 1];
      RunAppend(s, a, b[..|b| - 1]);
    }
  }

  // ---------------------------------------------------------------- exactly when a stale snapshot can win

  predicate StaleWin(s: State, a: string) { Wins(s, a) && PhaseOf(s, a).version < Version(s) }

  /** The schedule with one more reader, who reads and decides after the first `i` actions. */
  function WithReader(acts: seq<Action>, i: nat, z: string, d: Decision): seq<Action>
    requires i <= |acts|
  {
    acts[..i] + [ReadSnapshot(z, false), Observe(z, d)] + acts[i..]
  }

  ghost predicate SameBut(s: State, s': State, z: string) {
    && s'.person == s.person && s'.timeline == s.timeline && s'.history == s.history
    && forall a :: a != z ==> PhaseOf(s', a) == PhaseOf(s, a)
  }

  lemma SameButStep(s: State, s': State, act: Action, z: string)
    requires SameBut(s, s', z) && !Touches(act, z)
    ensures SameBut(Step(s, act), Step(s', act), z) && PhaseOf(Step(s', act), z) == PhaseOf(s', z)
  {
    match act {
      case Observe(b, _) => assert PhaseOf(s', b) == PhaseOf(s, b);
      case Transact(b) => assert PhaseOf(s', b) == PhaseOf(s, b);
      case _ =>
    }
    forall a | a != z ensures PhaseOf(Step(s', act), a) == PhaseOf(Step(s, act), a) {
      assert PhaseOf(s', a) == PhaseOf(s, a);
    }
  }

  lemma {:induction false} SameButRun(s: State, s': State, acts: seq<Action>, z: string)
    requires SameBut(s, s', z) && forall act :: act in acts ==> !Touches(act, z)
    ensures SameBut(Run(s, acts), Run(s', acts), z) && PhaseOf(Run(s', acts), z) == PhaseOf(s', z)
  {
    if acts != [] {
      var less := acts[..|acts| - 1];
      SameButRun(s, s', less, z);
      assert acts[|acts| - 1] in acts;
      SameButStep(Run(s, less), Run(s', less), acts[|acts| - 1], z);
    }
  }

  lemma StepKeepsSnapshots(s: State, act: Action)
    requires SnapshotsAreOld(s)
    ensures SnapshotsAreOld(Step(s, act)) && s.history <= Step(s, act).history
    ensures |Step(s, act).history| <= |s.history| + 1
  {}

  lemma {:induction false} RunKeepsSnapshots(s: State, acts: seq<Action>)
    requires SnapshotsAreOld(s)
    ensures SnapshotsAreOld(Run(s, acts)) && s.history <= Run(s, acts).history
  {
    if acts != [] {
      RunKeepsSnapshots(s, acts[..|acts| - 1]);
      StepKeepsSnapshots(Run(s, acts[..|acts| - 1]), acts[|acts| - 1]);
    }
  }

  /** Every version was current at some point of the run. */
  lemma {:induction false} WhenCurrent(s: State, acts: seq<Action>, v: nat) returns (i: nat)
    requires SnapshotsAreOld(s) && |s.history| <= v + 1 <= |Run(s, acts).history|
    ensures i <= |acts| && |Run(s, acts[..i]).history| == v + 1
  {
    if |Run(s, acts).history| == v + 1 {
      i := |acts|;
      assert acts[..i] == acts;
    } else {
      var less := acts[..|acts| - 1];
      RunKeepsSnapshots(s, less);
      StepKeepsSnapshots(Run(s, less), acts[|acts| - 1]);
      i := WhenCurrent(s, less, v);
      assert less[..i] == acts[..i];
    }
  }

  /** What a new reader finds and keeps, and that nobody else notices. */
  lemma ReaderReads(s: State, acts: seq<Action>, i: nat, z: string, d: Decision)
    requires SnapshotsAreOld(s) && i <= |acts| && forall act :: act in acts ==> !Touches(act, z)
    ensures var mid, s' := Run(s, acts[..i]), Run(s, WithReader(acts, i, z, d));
            && SameBut(Run(s, acts), s', z) && SnapshotsAreOld(s')
            && PhaseOf(s', z) == if FastPath(Read(mid.person, false), d, LastState(mid.timeline))
                                 then Done(Result(false, false, LastState(mid.timeline), d.nextState))
                                 else Observed(Read(mid.person, false), Version(mid), d, LastState(mid.timeline))
  {
    var mid, look := Run(s, acts[..i]), [ReadSnapshot(z, false), Observe(z, d)];
    var mid' := Run(mid, look);
    OneMore(mid, [], ReadSnapshot(z, false));
    OneMore(mid, [ReadSnapshot(z, false)], Observe(z, d));
    assert [ReadSnapshot(z, false)] + [Observe(z, d)] == look;
    assert SameBut(mid, mid', z);
    SameButRun(mid, mid', acts[i..], z);
    assert acts == acts[..i] + acts[i..];
    RunAppend(s, acts[..i], acts[i..]);
    RunAppend(s, acts[..i], look);
    RunAppend(s, acts[..i] + look, acts[i..]);
    RunKeepsSnapshots(s, WithReader(acts, i, z, d));
  }

  /** The row carries a mark it has carried before. */
  predicate MarkIsBack(s: State) {
    exists v: nat :: v < Version(s) && v < |s.history| && s.history[v] == MarkOf(s.person)
  }

  /**
   At the end of a schedule some reader along the way could win with a stale snapshot exactly
   when the row carries a mark it has carried before, and the person is active.
   */
  lemma StaleSnapshotsWinExactly(p: Person, timeline: seq<Event>, acts: seq<Action>, z: string)
    requires forall act :: act in acts ==> !Touches(act, z)
    ensures (exists i: nat, d: Decision ::
               i <= |acts| && StaleWin(Run(Start(p, timeline), WithReader(acts, i, z, d)), z))
              <==> MarkIsBack(Run(Start(p, timeline), acts)) && Run(Start(p, timeline), acts).person.active
  {
    var s0 := Start(p, timeline);
    var s := Run(s0, acts);
    forall i: nat, d: Decision | i <= |acts| && StaleWin(Run(s0, WithReader(acts, i, z, d)), z)
      ensures MarkIsBack(s) && s.person.active
    {
      ReaderReads(s0, acts, i, z, d);
      var v := PhaseOf(Run(s0, WithReader(acts, i, z, d)), z).version;
      assert s.history[v] == MarkOf(s.person);
    }
    if MarkIsBack(s) && s.person.active {
      var v: nat :| v < Version(s) && v < |s.history| && s.history[v] == MarkOf(s.person);
      var i := WhenCurrent(s0, acts, v);
      ReaderOfMark(p, timeline, acts, z, i, v);
    }
  }

  /** A reader of the version that carried the mark first, deciding on another score, wins at the end. */
  lemma ReaderOfMark(p: Person, timeline: seq<Event>, acts: seq<Action>, z: string, i: nat, v: nat)
    requires forall act :: act in acts ==> !Touches(act, z)
    requires var s0 := Start(p, timeline);
             && i <= |acts| && |Run(s0, acts[..i]).history| == v + 1 < |Run(s0, acts).history|
             && Run(s0, acts).history[v] == MarkOf(Run(s0, acts).person) && Run(s0, acts).person.active
    ensures exists d: Decision :: StaleWin(Run(Start(p, timeline), WithReader(acts, i, z, d)), z)
  {
    var s0 := Start(p, timeline);
    var mid := Run(s0, acts[..i]);
    var d := Decision(NORMAL, mid.person.riskScore + 1, None, 0, Absent);
    ReaderReads(s0, acts, i, z, d);
    RunKeepsSnapshots(s0, acts[..i]);
    RunKeepsSnapshots(mid, acts[i..]);
    RunAppend(s0, acts[..i], acts[i..]);
    assert acts[..i] + acts[i..] == acts;
    assert StaleWin(Run(s0, WithReader(acts, i, z, d)), z);
  }

  // ---------------------------------------------------------------- the code

  class OperationalStateStore {
    var person: Person
    var timeline: seq<Event>

    constructor (person: Person)
      ensures this.person == person && timeline == []
    {
      this.person := person;
      timeline := [];
    }

    /** The state the newest event names, where it should or where older events do; nothing else counts. */
    method GetLastState() returns (last: Option<StateValue>)
      ensures last == LastState(timeline)
      ensures timeline == [] ==> last == None
      ensures timeline != [] ==>
                match timeline[|timeline| - 1].metadata
                case NoObject => last == None
                case Fields(_, to, state) => last == if to.Absent? then Named(state) else Named(to)
      ensures forall v :: last == Some(v) <==> timeline != [] && Says(timeline[|timeline| - 1], v)
    {
      if timeline == [] { return None; }
      var meta := timeline[|timeline| - 1].metadata;
      if meta.NoObject? { return None; }
      var to := if meta.to.Absent? then meta.state else meta.to;
      forall v ensures Named(to) == Some(v) <==> to == Text(Name(v)) { NamesAreRead(to, v); }
      var states := [NORMAL, WARNING, RESTRICTED, SUSPENDED];
      last := None;
      var i := 0;
      while i < |states|
        invariant 0 <= i <= |states| && last.None?
        invariant forall k :: 0 <= k < i ==> to != Text(Name(states[k]))
      {
        if to == Text(Name(states[i])) { return Some(states[i]); }
        i := i + 1;
      }
      assert to != Text(Name(states[0])) && to != Text(Name(states[1]));
      assert to != Text(Name(states[2])) && to != Text(Name(states[3]));
    }

    /** The transaction: claim the row, look at the timeline again, append when it has to move. */
    method Transact(snap: Snapshot, d: Decision, observed: Option<StateValue>) returns (r: Result)
      modifies this
      ensures r.claimed == Matches(old(person), snap, d)
      ensures person == if r.claimed then Claimed(old(person), d) else old(person)
      ensures timeline == if r.claimed then Appended(old(timeline), d) else old(timeline)
      ensures r.changed == (timeline != old(timeline)) && r.to == d.nextState
      ensures r.from == if r.claimed then LastState(old(timeline)) else observed
      ensures r.claimed ==>
                && person.state == d.nextState && person.riskScore == d.riskScore
                && person.updatedAt == Some(d.evaluatedAt) && person.active == old(person).active
                && person.legacyRiskScore ==
                     if d.nextLegacy.Some? then d.nextLegacy.value else old(person).legacyRiskScore
    {
      var guard := person.active && person.state == snap.state && person.riskScore == snap.riskScore
        && person.updatedAt == snap.updatedAt;
      if d.nextLegacy.Some? && snap.legacyRiskScore.Some? {
        guard := guard && person.legacyRiskScore == snap.legacyRiskScore.value;
      }
      if !guard { return Result(false, false, observed, d.nextState); }
      person := person.(state := d.nextState, riskScore := d.riskScore, updatedAt := Some(d.evaluatedAt));
      if d.nextLegacy.Some? { person := person.(legacyRiskScore := d.nextLegacy.value); }
      var last := GetLastState();
      if last == Some(d.nextState) { return Result(true, false, last, d.nextState); }
      var from := if last.Some? then Name(last.value) else "UNKNOWN";
      timeline := timeline + [Event(Fields(Text(from), Text(Name(d.nextState)), d.extra))];
      r := Result(true, true, last, d.nextState);
    }

    /**
     The whole call, from a snapshot of any age: the protocol's Observe, whatever others do
     (`meanwhile`, any actions of theirs), and the protocol's Transact.
     */
    method Persist(a: string, world: State, d: Decision, meanwhile: seq<Action>) returns (r: Result, world': State)
      requires PhaseOf(world, a).Holding? && world.person == person && world.timeline == timeline
      requires forall act :: act in meanwhile ==> !Touches(act, a)
      modifies this
      ensures person == world'.person && timeline == world'.timeline && PhaseOf(world', a) == Done(r)
      ensures || world' == Run(world, [Observe(a, d)])
              || world' == Run(world, [Observe(a, d)] + meanwhile + [Action.Transact(a)])
    {
      var snap := PhaseOf(world, a).snap;
      var observed := GetLastState();
      RunAppend(world, [], [Observe(a, d)]);
      assert [Observe(a, d)][..0] == [] && Run(world, [Observe(a, d)]) == Step(world, Observe(a, d));
      world' := Step(world, Observe(a, d));
      var legacyOk := d.nextLegacy.None? || (snap.legacyRiskScore.Some? && snap.legacyRiskScore == d.nextLegacy);
      if observed.Some? && observed.value == d.nextState && snap.state == d.nextState
         && snap.riskScore == d.riskScore && snap.updatedAt.Some? && legacyOk {
        return Result(false, false, observed, d.nextState), world';
      }
      RunAppend(world, [Observe(a, d)], meanwhile);
      OthersKeepPhase(world', meanwhile, a);
      world' := Run(world', meanwhile);
      person, timeline := world'.person, world'.timeline;
      r := Transact(snap, d, observed);
      ghost var acts := [Observe(a, d)] + meanwhile;
      assert (acts + [Action.Transact(a)])[..|acts|] == acts;
      world' := Step(world', Action.Transact(a));
    }
  }

  predicate Touches(act: Action, a: string) {
    match act
    case ReadSnapshot(b, _) => a == b
    case Observe(b, _) => a == b
    case Transact(b) => a == b
    case RollBack(b) => a == b
    case _ => false
  }

  lemma {:induction false} OthersKeepPhase(s: State, acts: seq<Action>, a: string)
    requires forall act :: act in acts ==> !Touches(act, a)
    ensures PhaseOf(Run(s, acts), a) == PhaseOf(s, a)
  {
    if |acts| > 0 {
      var less, last := acts[..|acts| - 1], acts[|acts| - 1];
      OthersKeepPhase(s, less, a);
      assert last in acts;
    }
  }
}
