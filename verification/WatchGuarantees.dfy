/** What holds of watch-together sessions over every run of service calls: who may act, whose approval
    that took, and how a session ends. */
module WatchGuarantees {
  import opened Common
  import opened WatchTogether

  datatype Call =
    | Create(sid: string, userId: string, postId: string, requireHostApproval: bool, post: Option<Post>, unlocked: bool)
    | Register(sid: string, userId: string, post: Option<Post>, unlocked: bool)
    | Get(sid: string, userId: string, post: Option<Post>, unlocked: bool)
    | Decide(sid: string, userId: string, targetId: string, accept: bool)
    | Chat(sid: string, userId: string, raw: string)
    | Play(sid: string, userId: string, position: Option<real>, isPlaying: bool)
    | Leave(sid: string, userId: string)
    | End(sid: string, userId: string)
    | Cleanup(order: seq<string>)

  /** A call and the time at which it is served; no order of times is needed. */
  datatype Event = At(now: int, call: Call)

  ghost function Step(s: State, e: Event): State {
    match e.call
    case Create(sid, u, postId, flag, post, unlocked) =>
      if sid in s.sessions then s else CreateOp(s, sid, u, postId, flag, post, unlocked, e.now).0
    case Register(sid, u, post, unlocked) => RegisterOp(s, sid, u, post, unlocked, e.now).0
    case Get(sid, u, post, unlocked) => GetSessionOp(s, sid, u, post, unlocked, e.now).0
    case Decide(sid, u, target, accept) => DecideOp(s, sid, u, target, accept).0
    case Chat(sid, u, raw) => AppendOp(s, sid, u, raw, e.now).0
    case Play(sid, u, position, isPlaying) => PlaybackOp(s, sid, u, position, isPlaying, e.now).0
    case Leave(sid, u) => LeaveOp(s, sid, u)
    case End(sid, u) => EndOp(s, sid, u).0
    case Cleanup(order) => if ListsStale(s, e.now, order) then EndAll(s, order) else s
  }

  ghost function Run(es: seq<Event>): State {
    if es == [] then State(map[], []) else Step(Run(es[..|es| - 1]), es[|es| - 1])
  }

  // What the history says -------------------------------------------------------------------------

  /** A viewer's standing, read off the history alone. */
  function Standing(history: seq<Act>, sid: string, userId: string): Option<Status> {
    if history == [] then None
    else
      match history[|history| - 1]
      case Entered(s, u) => if s == sid && u == userId then Some(Approved) else Standing(history[..|history| - 1], sid, userId)
      case Requested(s, u) => if s == sid && u == userId then Some(Pending) else Standing(history[..|history| - 1], sid, userId)
      case HostApproved(s, _, u) => if s == sid && u == userId then Some(Approved) else Standing(history[..|history| - 1], sid, userId)
      case HostRejected(s, _, u) => if s == sid && u == userId then Some(Rejected) else Standing(history[..|history| - 1], sid, userId)
      case Left(s, u) => if s == sid && u == userId then None else Standing(history[..|history| - 1], sid, userId)
      case _ => Standing(history[..|history| - 1], sid, userId)
  }

  function Endings(history: seq<Act>, sid: string): nat {
    if history == [] then 0
    else Endings(history[..|history| - 1], sid) + if history[|history| - 1] == EndedEmitted(sid) then 1 else 0
  }

  /** Everything said in a session, oldest first. */
  function Said(history: seq<Act>, sid: string): seq<Message> {
    if history == [] then []
    else
      var last := history[|history| - 1];
      Said(history[..|history| - 1], sid)
      + if last.Spoke? && last.sessionId == sid then [Message(last.userId, last.body)] else []
  }

  lemma StandingAppend(history: seq<Act>, a: Act, sid: string, userId: string)
    ensures Standing(history + [a], sid, userId) ==
            if a == Requested(sid, userId) then Some(Pending)
            else if a == Entered(sid, userId) then Some(Approved)
            else if a.HostApproved? && a.sessionId == sid && a.userId == userId then Some(Approved)
            else if a.HostRejected? && a.sessionId == sid && a.userId == userId then Some(Rejected)
            else if a == Left(sid, userId) then None
            else Standing(history, sid, userId)
    ensures Endings(history + [a], sid) == Endings(history, sid) + if a == EndedEmitted(sid) then 1 else 0
    ensures Said(history + [a], sid)
            == Said(history, sid) + if a.Spoke? && a.sessionId == sid then [Message(a.userId, a.body)] else []
  {
    assert (history + [a])[..|history|] == history;
  }

  // The invariant ---------------------------------------------------------------------------------

  predicate Local(w: Session) {
    && w.hostId in w.rows && w.rows[w.hostId] == Approved
    && (w.ended ==> w.messages == [])
    && (!w.requireHostApproval ==> forall u :: u in w.rows ==> w.rows[u] == Approved)
  }

  predicate EndingsOk(s: State, sid: string) {
    Endings(s.history, sid) == if sid in s.sessions && s.sessions[sid].ended then 1 else 0
  }

  /** Until it ends, a session holds everything that was said in it. */
  predicate MessagesOk(s: State, sid: string) {
    if sid !in s.sessions then Said(s.history, sid) == []
    else !s.sessions[sid].ended ==> s.sessions[sid].messages == Said(s.history, sid)
  }

  /** The row of a viewer is what the history says. */
  predicate RowOk(s: State, sid: string, userId: string) {
    if sid !in s.sessions then Standing(s.history, sid, userId) == None
    else s.sessions[sid].hostId != userId ==>
           RowOf(s, sid, userId) == Standing(s.history, sid, userId)
  }

  /** The act was permitted when it happened. */
  predicate ActOk(s: State, j: nat)
    requires j < |s.history|
  {
    var a := s.history[j];
    a.sessionId in s.sessions &&
    var w := s.sessions[a.sessionId];
    match a
    case Spoke(sid, u, _) => Endings(s.history[..j], sid) == 0 && MayAct(s, w, j, sid, u)
    case Played(sid, u) => Endings(s.history[..j], sid) == 0 && MayAct(s, w, j, sid, u)
    case HostApproved(sid, host, u) => host == w.hostId && u != host && w.requireHostApproval
    case Entered(_, _) => !w.requireHostApproval
    case _ => true
  }

  predicate MayAct(s: State, w: Session, j: nat, sid: string, userId: string)
    requires j < |s.history|
  {
    w.hostId != userId ==> Standing(s.history[..j], sid, userId) == Some(Approved)
  }

  ghost predicate Inv(s: State) {
    && (forall sid :: sid in s.sessions ==> Local(s.sessions[sid]))
    && (forall sid :: EndingsOk(s, sid))
    && (forall sid :: MessagesOk(s, sid))
    && (forall sid, u :: RowOk(s, sid, u))
    && (forall j :: 0 <= j < |s.history| ==> ActOk(s, j))
  }

  /** What never changes about a session. */
  predicate SameSession(w: Session, w': Session) {
    w'.hostId == w.hostId && w'.postId == w.postId && w'.requireHostApproval == w.requireHostApproval
    && w'.expiresAt == w.expiresAt && (w.ended ==> w'.ended)
  }

  ghost predicate Grows(s: State, s': State) {
    && (forall sid :: sid in s.sessions ==> sid in s'.sessions && SameSession(s.sessions[sid], s'.sessions[sid]))
    && s.history <= s'.history
  }

  // Steps -----------------------------------------------------------------------------------------

  lemma OldActsStay(s: State, s': State, j: nat)
    requires Grows(s, s') && j < |s.history| && ActOk(s, j)
    ensures ActOk(s', j)
  {
    assert s'.history[..j] == s.history[..j] && s'.history[j] == s.history[j];
  }

  /** A step that changes one session without recording anything. */
  lemma QuietStep(s: State, sid: string, w: Session)
    requires Inv(s) && Local(w)
    requires sid in s.sessions ==> SameSession(s.sessions[sid], w) && w.ended == s.sessions[sid].ended
    requires sid !in s.sessions ==> !w.ended
    requires w.messages == if sid in s.sessions then s.sessions[sid].messages else []
    requires forall u :: RowOk(Set(s, sid, w), sid, u)
    ensures Inv(Set(s, sid, w)) && Grows(s, Set(s, sid, w))
  {
    var s' := Set(s, sid, w);
    forall id ensures EndingsOk(s', id) && MessagesOk(s', id) {
      assert EndingsOk(s, id) && MessagesOk(s, id);
    }
    forall id, u ensures RowOk(s', id, u) {
      if id == sid {
        assert RowOk(Set(s, sid, w), sid, u);
      } else {
        assert RowOk(s, id, u);
      }
    }
    forall j | 0 <= j < |s'.history| ensures ActOk(s', j) {
      OldActsStay(s, s', j);
    }
  }

  /** A step that changes one session and records one act about it. */
  lemma RecordedStep(s: State, sid: string, w: Session, a: Act)
    requires Inv(s) && Local(w) && a.sessionId == sid && sid in s.sessions
    requires SameSession(s.sessions[sid], w)
    requires a == EndedEmitted(sid) <==> w.ended && !s.sessions[sid].ended
    requires w.ended || w.messages == s.sessions[sid].messages + if a.Spoke? then [Message(a.userId, a.body)] else []
    requires forall u :: RowOk(Put(s, sid, w, a), sid, u)
    requires ActOk(Put(s, sid, w, a), |s.history|)
    ensures Inv(Put(s, sid, w, a)) && Grows(s, Put(s, sid, w, a))
  {
    var s' := Put(s, sid, w, a);
    forall id ensures EndingsOk(s', id) && MessagesOk(s', id) {
      assert EndingsOk(s, id) && MessagesOk(s, id);
      StandingAppend(s.history, a, id, "");
    }
    forall id, u ensures RowOk(s', id, u) {
      if id == sid {
        assert RowOk(Put(s, sid, w, a), sid, u);
      } else {
        assert RowOk(s, id, u);
        StandingAppend(s.history, a, id, u);
      }
    }
    forall j | 0 <= j < |s'.history| ensures ActOk(s', j) {
      if j < |s.history| {
        OldActsStay(s, s', j);
      }
    }
  }

  lemma CreateKeeps(s: State, sid: string, u: string, postId: string, flag: bool, post: Option<Post>, unlocked: bool, now: int)
    requires Inv(s) && sid !in s.sessions
    ensures var s' := CreateOp(s, sid, u, postId, flag, post, unlocked, now).0; Inv(s') && Grows(s, s')
  {
    var (s', r) := CreateOp(s, sid, u, postId, flag, post, unlocked, now);
    if r.Success? {
      forall v ensures RowOk(s', sid, v) {
        assert RowOk(s, sid, v);
      }
      QuietStep(s, sid, r.value);
    }
  }

  /** What an act makes of a viewer's row. */
  predicate Moves(a: Act, sid: string, userId: string, status: Status) {
    match status
    case Approved => a == Entered(sid, userId) || (a.HostApproved? && a.sessionId == sid && a.userId == userId)
    case Pending => a == Requested(sid, userId)
    case Rejected => a.HostRejected? && a.sessionId == sid && a.userId == userId
  }

  /** A step that changes the row of one viewer and records why. */
  lemma RowStep(s: State, sid: string, u: string, status: Status, a: Act)
    requires Inv(s) && sid in s.sessions && s.sessions[sid].hostId != u && Moves(a, sid, u, status)
    requires a.Entered? ==> !s.sessions[sid].requireHostApproval
    requires !a.Entered? ==> s.sessions[sid].requireHostApproval
    requires a.HostApproved? ==> a.hostId == s.sessions[sid].hostId
    ensures var s' := Put(s, sid, s.sessions[sid].(rows := s.sessions[sid].rows[u := status]), a);
            Inv(s') && Grows(s, s')
  {
    var w' := s.sessions[sid].(rows := s.sessions[sid].rows[u := status]);
    var s' := Put(s, sid, w', a);
    forall v ensures RowOk(s', sid, v) {
      assert RowOk(s, sid, v);
      StandingAppend(s.history, a, sid, v);
    }
    RecordedStep(s, sid, w', a);
  }

  lemma RegisterKeeps(s: State, sid: string, u: string, post: Option<Post>, unlocked: bool, now: int)
    requires Inv(s)
    ensures var s' := RegisterOp(s, sid, u, post, unlocked, now).0; Inv(s') && Grows(s, s')
  {
    var (s', r) := RegisterOp(s, sid, u, post, unlocked, now);
    if r.Success? {
      var w := s.sessions[sid];
      if w.hostId == u {
        forall v ensures RowOk(s', sid, v) {
          assert RowOk(s, sid, v);
        }
        QuietStep(s, sid, s'.sessions[sid]);
      } else if u !in w.rows || w.rows[u] == Rejected {
        if w.requireHostApproval {
          RowStep(s, sid, u, Pending, Requested(sid, u));
        } else {
          RowStep(s, sid, u, Approved, Entered(sid, u));
        }
      }
    }
  }

  lemma DecideKeeps(s: State, sid: string, u: string, target: string, accept: bool)
    requires Inv(s)
    ensures var s' := DecideOp(s, sid, u, target, accept).0; Inv(s') && Grows(s, s')
  {
    if DecideOp(s, sid, u, target, accept).1.Success? {
      if accept {
        RowStep(s, sid, target, Approved, HostApproved(sid, u, target));
      } else {
        RowStep(s, sid, target, Rejected, HostRejected(sid, u, target));
      }
    }
  }

  /** An approved participant of a live session acts. */
  lemma ActKeeps(s: State, sid: string, u: string, w: Session, a: Act)
    requires Inv(s) && sid in s.sessions && !s.sessions[sid].ended
    requires s.sessions[sid].hostId == u || RowOf(s, sid, u) == Some(Approved)
    requires (a.Spoke? || a.Played?) && a.sessionId == sid && a.userId == u
    requires w.messages == s.sessions[sid].messages + if a.Spoke? then [Message(u, a.body)] else []
    requires !w.ended && w.rows == s.sessions[sid].rows && SameSession(s.sessions[sid], w)
    ensures Inv(Put(s, sid, w, a)) && Grows(s, Put(s, sid, w, a))
  {
    var s' := Put(s, sid, w, a);
    forall v ensures RowOk(s', sid, v) {
      assert RowOk(s, sid, v);
      StandingAppend(s.history, a, sid, v);
    }
    assert RowOk(s, sid, u) && EndingsOk(s, sid);
    assert s'.history[..|s.history|] == s.history;
    RecordedStep(s, sid, w, a);
  }

  lemma EndOneKeeps(s: State, sid: string)
    requires Inv(s) && sid in s.sessions && !s.sessions[sid].ended
    ensures Inv(EndOne(s, sid)) && Grows(s, EndOne(s, sid))
  {
    var s' := EndOne(s, sid);
    forall v ensures RowOk(s', sid, v) {
      assert RowOk(s, sid, v);
      StandingAppend(s.history, EndedEmitted(sid), sid, v);
    }
    RecordedStep(s, sid, s'.sessions[sid], EndedEmitted(sid));
  }

  lemma EndKeeps(s: State, sid: string, u: string)
    requires Inv(s)
    ensures var s' := EndOp(s, sid, u).0; Inv(s') && Grows(s, s')
  {
    if sid in s.sessions && s.sessions[sid].hostId == u && !s.sessions[sid].ended {
      EndOneKeeps(s, sid);
    }
  }

  lemma LeaveKeeps(s: State, sid: string, u: string)
    requires Inv(s)
    ensures Inv(LeaveOp(s, sid, u)) && Grows(s, LeaveOp(s, sid, u))
  {
    if sid in s.sessions {
      var w, s' := s.sessions[sid], LeaveOp(s, sid, u);
      if w.hostId == u {
        EndKeeps(s, sid, u);
      } else {
        forall v ensures RowOk(s', sid, v) {
          assert RowOk(s, sid, v);
          StandingAppend(s.history, Left(sid, u), sid, v);
        }
        RecordedStep(s, sid, s'.sessions[sid], Left(sid, u));
      }
    }
  }

  /** Ending sessions one after the other touches each once. */
  lemma {:induction false} EndAllKeeps(s: State, order: seq<string>)
    requires Inv(s) && Distinct(order)
    requires forall i :: 0 <= i < |order| ==> order[i] in s.sessions && !s.sessions[order[i]].ended
    ensures Inv(EndAll(s, order)) && Grows(s, EndAll(s, order))
  {
    if order == [] {
    } else {
      var n := |order| - 1;
      EndAllKeeps(s, order[..n]);
      LastStillOpen(s, order);
      EndOneKeeps(EndAll(s, order[..n]), order[n]);
      GrowsOn(s, EndAll(s, order[..n]), EndAll(s, order));
    }
  }

  lemma LastStillOpen(s: State, order: seq<string>)
    requires order != [] && Distinct(order) && forall i :: 0 <= i < |order| ==> order[i] in s.sessions
    ensures var n := |order| - 1;
            EndAll(s, order[..n]).sessions[order[n]] == s.sessions[order[n]] && EndAll(s, order) == EndOne(EndAll(s, order[..n]), order[n])
  {
    var n := |order| - 1;
    CleanupEnds(s, order[..n]);
    assert order[n] !in order[..n];
  }

  lemma GrowsOn(s: State, s': State, s'': State)
    requires Grows(s, s') && Grows(s', s'')
    ensures Grows(s, s'')
  {
  }

  lemma GetKeeps(s: State, sid: string, u: string, post: Option<Post>, unlocked: bool, now: int)
    requires Inv(s)
    ensures var s' := GetSessionOp(s, sid, u, post, unlocked, now).0; Inv(s') && Grows(s, s')
  {
    RegisterKeeps(s, sid, u, post, unlocked, now);
  }

  lemma CleanupKeeps(s: State, now: int, order: seq<string>)
    requires Inv(s)
    ensures ListsStale(s, now, order) ==> Inv(EndAll(s, order)) && Grows(s, EndAll(s, order))
  {
    if ListsStale(s, now, order) {
      EndAllKeeps(s, order);
    }
  }

  lemma AppendKeeps(s: State, sid: string, u: string, raw: string, now: int)
    requires Inv(s)
    ensures var s' := AppendOp(s, sid, u, raw, now).0; Inv(s') && Grows(s, s')
  {
    var (s', r) := AppendOp(s, sid, u, raw, now);
    if r.Success? {
      ActKeeps(s, sid, u, s'.sessions[sid], Spoke(sid, u, Body(raw)));
    }
  }

  lemma PlaybackKeeps(s: State, sid: string, u: string, position: Option<real>, isPlaying: bool, now: int)
    requires Inv(s)
    ensures var s' := PlaybackOp(s, sid, u, position, isPlaying, now).0; Inv(s') && Grows(s, s')
  {
    var (s', r) := PlaybackOp(s, sid, u, position, isPlaying, now);
    if r.Success? {
      ActKeeps(s, sid, u, s'.sessions[sid], Played(sid, u));
    }
  }

  /** The clean-up ends the listed sessions and clears their messages, announces each once in the
      order served, and leaves every other session as it was. */
  lemma CleanupEndsExactly(s: State, order: seq<string>)
    requires Distinct(order) && forall i :: 0 <= i < |order| ==> order[i] in s.sessions
    ensures var s' := EndAll(s, order);
            && (forall sid :: sid in s.sessions ==>
                  s'.sessions[sid] == if sid in order then s.sessions[sid].(ended := true, messages := []) else s.sessions[sid])
            && s'.history == s.history + Announcements(order)
  {
    CleanupEnds(s, order);
    CleanupAnnounces(s, order);
  }

  lemma {:induction false} CleanupEnds(s: State, order: seq<string>)
    requires Distinct(order) && forall i :: 0 <= i < |order| ==> order[i] in s.sessions
    ensures forall sid :: sid in s.sessions ==>
              EndAll(s, order).sessions[sid] == if sid in order then s.sessions[sid].(ended := true, messages := []) else s.sessions[sid]
  {
    if order == [] {
    } else {
      var n := |order| - 1;
      var rest := order[..n];
      CleanupEnds(s, rest);
      assert order == rest + [order[n]] && order[n] !in rest;
    }
  }

  lemma {:induction false} CleanupAnnounces(s: State, order: seq<string>)
    requires forall i :: 0 <= i < |order| ==> order[i] in s.sessions
    ensures EndAll(s, order).history == s.history + Announcements(order)
  {
    if order == [] {
    } else {
      var n := |order| - 1;
      CleanupAnnounces(s, order[..n]);
      assert Announcements(order) == Announcements(order[..n]) + [EndedEmitted(order[n])];
    }
  }

  function Announcements(order: seq<string>): seq<Act> {
    seq(|order|, i requires 0 <= i < |order| => EndedEmitted(order[i]))
  }

  lemma StepKeeps(s: State, e: Event)
    requires Inv(s)
    ensures Inv(Step(s, e)) && Grows(s, Step(s, e))
  {
    match e.call
    case Create(sid, u, postId, flag, post, unlocked) =>
      if sid !in s.sessions {
        CreateKeeps(s, sid, u, postId, flag, post, unlocked, e.now);
      }
    case Register(sid, u, post, unlocked) => RegisterKeeps(s, sid, u, post, unlocked, e.now);
    case Get(sid, u, post, unlocked) => GetKeeps(s, sid, u, post, unlocked, e.now);
    case Decide(sid, u, target, accept) => DecideKeeps(s, sid, u, target, accept);
    case Chat(sid, u, raw) => AppendKeeps(s, sid, u, raw, e.now);
    case Play(sid, u, position, isPlaying) => PlaybackKeeps(s, sid, u, position, isPlaying, e.now);
    case Leave(sid, u) => LeaveKeeps(s, sid, u);
    case End(sid, u) => EndKeeps(s, sid, u);
    case Cleanup(order) => CleanupKeeps(s, e.now, order);
  }

  lemma {:induction false} RunKeeps(es: seq<Event>)
    ensures Inv(Run(es))
  {
    if es == [] {
    } else {
      RunKeeps(es[..|es| - 1]);
      StepKeeps(Run(es[..|es| - 1]), es[|es| - 1]);
    }
  }

  lemma {:induction false} RunGrows(es: seq<Event>, k: nat)
    requires k <= |es|
    ensures Grows(Run(es[..k]), Run(es))
  {
    if k == |es| {
      assert es[..k] == es;
    } else {
      var n := |es| - 1;
      RunGrows(es[..n], k);
      assert es[..n][..k] == es[..k];
      RunKeeps(es[..n]);
      StepKeeps(Run(es[..n]), es[n]);
    }
  }

  // Who may act -----------------------------------------------------------------------------------

  predicate Undoes(a: Act, sid: string, userId: string) {
    a == Requested(sid, userId) || a == Left(sid, userId)
    || (a.HostRejected? && a.sessionId == sid && a.userId == userId)
  }

  /** From position i on nothing undid the viewer's standing. */
  predicate NotUndoneSince(history: seq<Act>, i: nat, sid: string, userId: string)
    requires i < |history|
  {
    forall m :: i < m < |history| ==> !Undoes(history[m], sid, userId)
  }

  /** An approval of the viewer after which the viewer neither left, asked again nor was rejected. */
  predicate ApprovedAt(history: seq<Act>, i: nat, hostId: string, sid: string, userId: string)
    requires i < |history|
  {
    history[i] == HostApproved(sid, hostId, userId) && NotUndoneSince(history, i, sid, userId)
  }

  /** The viewer came in without needing an approval, and has not left. */
  predicate EnteredAt(history: seq<Act>, i: nat, sid: string, userId: string)
    requires i < |history|
  {
    history[i] == Entered(sid, userId) && NotUndoneSince(history, i, sid, userId)
  }

  predicate Admits(a: Act, sid: string, userId: string) {
    a == Entered(sid, userId) || (a.HostApproved? && a.sessionId == sid && a.userId == userId)
  }

  lemma {:induction false} ApprovedMeans(history: seq<Act>, sid: string, userId: string)
    requires Standing(history, sid, userId) == Some(Approved)
    ensures exists i :: 0 <= i < |history| && Admits(history[i], sid, userId) && NotUndoneSince(history, i, sid, userId)
  {
    var n := |history| - 1;
    if Admits(history[n], sid, userId) {
      assert NotUndoneSince(history, n, sid, userId);
    } else {
      ApprovedMeans(history[..n], sid, userId);
      var i :| 0 <= i < n && Admits(history[..n][i], sid, userId) && NotUndoneSince(history[..n], i, sid, userId);
      assert Admits(history[i], sid, userId);
      forall m | i < m < |history| ensures !Undoes(history[m], sid, userId) {
        assert m < n ==> history[m] == history[..n][m];
      }
      assert NotUndoneSince(history, i, sid, userId);
    }
  }

  /** How a viewer with a standing at time k got in. */
  lemma AdmittedHow(es: seq<Event>, sid: string, userId: string, k: nat)
    requires k <= |Run(es).history| && Standing(Run(es).history[..k], sid, userId) == Some(Approved)
    ensures var s := Run(es);
            sid in s.sessions &&
            if s.sessions[sid].requireHostApproval then
              exists i :: 0 <= i < k && ApprovedAt(s.history[..k], i, s.sessions[sid].hostId, sid, userId)
            else exists i :: 0 <= i < k && EnteredAt(s.history[..k], i, sid, userId)
  {
    var s := Run(es);
    var h := s.history[..k];
    RunKeeps(es);
    ApprovedMeans(h, sid, userId);
    var i :| 0 <= i < k && Admits(h[i], sid, userId) && NotUndoneSince(h, i, sid, userId);
    assert h[i] == s.history[i];
    assert ActOk(s, i);
    if s.sessions[sid].requireHostApproval {
      assert ApprovedAt(h, i, s.sessions[sid].hostId, sid, userId);
    } else {
      assert EnteredAt(h, i, sid, userId);
    }
  }

  lemma ApprovalsAreByTheHost(es: seq<Event>, j: nat)
    requires j < |Run(es).history| && Run(es).history[j].HostApproved?
    ensures var a := Run(es).history[j];
            a.sessionId in Run(es).sessions && a.hostId == Run(es).sessions[a.sessionId].hostId && a.userId != a.hostId
  {
    RunKeeps(es);
    assert ActOk(Run(es), j);
  }

  /** Where approval is required, a viewer's row says approved exactly when the host approved the
      viewer and since then the viewer has not left, asked again or been rejected. */
  lemma ApprovedExactlyByHost(es: seq<Event>, sid: string, userId: string)
    requires sid in Run(es).sessions
    requires Run(es).sessions[sid].requireHostApproval && Run(es).sessions[sid].hostId != userId
    ensures var s := Run(es);
            RowOf(s, sid, userId) == Some(Approved) <==>
            exists i :: 0 <= i < |s.history| && ApprovedAt(s.history, i, s.sessions[sid].hostId, sid, userId)
  {
    var s := Run(es);
    RunKeeps(es);
    assert RowOk(s, sid, userId);
    assert s.history[..|s.history|] == s.history;
    if RowOf(s, sid, userId) == Some(Approved) {
      AdmittedHow(es, sid, userId, |s.history|);
    }
    if i :| 0 <= i < |s.history| && ApprovedAt(s.history, i, s.sessions[sid].hostId, sid, userId) {
      StaysApproved(s.history, i, s.sessions[sid].hostId, sid, userId);
    }
  }

  lemma {:induction false} StaysApproved(history: seq<Act>, i: nat, hostId: string, sid: string, userId: string)
    requires i < |history| && ApprovedAt(history, i, hostId, sid, userId)
    ensures Standing(history, sid, userId) == Some(Approved)
  {
    var n := |history| - 1;
    if i == n {
    } else {
      assert !Undoes(history[n], sid, userId);
      assert ApprovedAt(history[..n], i, hostId, sid, userId);
      StaysApproved(history[..n], i, hostId, sid, userId);
    }
  }

  /** Every message and every change of playback came from the host or from a viewer who was in: where
      approval is required, one whom the host had approved, elsewhere one who had entered, and who in
      either case had not left, asked again or been rejected since. */
  lemma ActsAreApproved(es: seq<Event>, j: nat)
    requires j < |Run(es).history| && (Run(es).history[j].Spoke? || Run(es).history[j].Played?)
    ensures var s := Run(es);
            var a := s.history[j];
            a.sessionId in s.sessions &&
            var w := s.sessions[a.sessionId];
            (a.userId != w.hostId ==>
              if w.requireHostApproval then exists i :: 0 <= i < j && ApprovedAt(s.history[..j], i, w.hostId, a.sessionId, a.userId)
              else exists i :: 0 <= i < j && EnteredAt(s.history[..j], i, a.sessionId, a.userId))
  {
    var s := Run(es);
    var a := s.history[j];
    RunKeeps(es);
    assert ActOk(s, j);
    if a.userId != s.sessions[a.sessionId].hostId {
      AdmittedHow(es, a.sessionId, a.userId, j);
    }
  }

  /** Without the flag nobody waits or is rejected. */
  lemma NobodyWaits(es: seq<Event>, sid: string, userId: string)
    requires sid in Run(es).sessions && !Run(es).sessions[sid].requireHostApproval
    ensures RowOf(Run(es), sid, userId).None? || RowOf(Run(es), sid, userId) == Some(Approved)
  {
    RunKeeps(es);
  }

  /** The host's row is always there and approved, so passing the host without a look at the rows and
      asking for an approved row come to the same. */
  lemma ChecksAgree(es: seq<Event>, sid: string, userId: string, now: int)
    ensures AssertApproved(Run(es), sid, userId, now) == AssertApprovedRow(Run(es), sid, userId, now)
    ensures sid in Run(es).sessions ==> RowOf(Run(es), sid, Run(es).sessions[sid].hostId) == Some(Approved)
  {
    RunKeeps(es);
  }

  /** The chat history of a session that has not ended is what was said in it, from the start. */
  lemma ChatIsWhatWasSaid(es: seq<Event>, sid: string)
    requires sid in Run(es).sessions && !Run(es).sessions[sid].ended
    ensures Run(es).sessions[sid].messages == Said(Run(es).history, sid)
  {
    RunKeeps(es);
    assert MessagesOk(Run(es), sid);
  }

  predicate IsLive(s: State, sid: string, now: int) {
    sid in s.sessions && !s.sessions[sid].ended && now < s.sessions[sid].expiresAt
  }

  /** Entering, asking to join, speaking and playing happen in sessions that are neither over nor expired, by the
      caller; and what a call records it records once. */
  lemma OnlyInLiveSessions(s: State, e: Event, j: nat)
    requires |s.history| <= j < |Step(s, e).history|
    requires var a := Step(s, e).history[j]; a.Entered? || a.Requested? || a.Spoke? || a.Played?
    ensures var a := Step(s, e).history[j];
            && IsLive(s, a.sessionId, e.now) && j == |s.history|
            && !e.call.Cleanup? && e.call.userId == a.userId && e.call.sid == a.sessionId
  {
    match e.call
    case Cleanup(order) =>
      if ListsStale(s, e.now, order) {
        CleanupEndsExactly(s, order);
      }
    case _ =>
  }

  /** How a user who is not in a session gets in, or a rejected one back: by registering in person, in
      a live session, with access to the post's video. */
  predicate JoinsProperly(s: State, e: Event, sid: string, userId: string) {
    && IsLive(s, sid, e.now)
    && (e.call.Register? || e.call.Get?) && e.call.sid == sid && e.call.userId == userId
    && CanWatch(e.call.post, e.call.unlocked, userId) == Success(())
  }

  lemma JoiningNeedsAccess(s: State, e: Event, sid: string, userId: string)
    requires sid in s.sessions
    requires RowOf(s, sid, userId).None? || RowOf(s, sid, userId) == Some(Rejected)
    requires RowOf(Step(s, e), sid, userId) != RowOf(s, sid, userId) && RowOf(Step(s, e), sid, userId).Some?
    ensures JoinsProperly(s, e, sid, userId)
  {
    match e.call
    case Cleanup(order) =>
      if ListsStale(s, e.now, order) {
        CleanupEndsExactly(s, order);
      }
    case _ =>
  }

  // How a session ends ----------------------------------------------------------------------------

  /** An ended session stays ended, with the same host and no messages. */
  lemma EndedIsFinal(es: seq<Event>, k: nat, sid: string)
    requires k <= |es| && sid in Run(es[..k]).sessions && Run(es[..k]).sessions[sid].ended
    ensures sid in Run(es).sessions && Run(es).sessions[sid].ended && Run(es).sessions[sid].messages == []
    ensures Run(es).sessions[sid].hostId == Run(es[..k]).sessions[sid].hostId
  {
    RunGrows(es, k);
    RunKeeps(es);
  }

  lemma {:induction false} AtLeast(history: seq<Act>, sid: string, i: nat)
    requires i < |history| && history[i] == EndedEmitted(sid)
    ensures Endings(history, sid) >= 1
  {
    if i == |history| - 1 {
    } else {
      AtLeast(history[..|history| - 1], sid, i);
    }
  }

  lemma {:induction false} NoEnding(history: seq<Act>, sid: string)
    requires forall i :: 0 <= i < |history| ==> history[i] != EndedEmitted(sid)
    ensures Endings(history, sid) == 0
  {
    if history == [] {
    } else {
      NoEnding(history[..|history| - 1], sid);
    }
  }

  lemma {:induction false} EndingsMonotone(history: seq<Act>, k: nat, sid: string)
    requires k <= |history|
    ensures Endings(history[..k], sid) <= Endings(history, sid)
  {
    if k == |history| {
      assert history[..k] == history;
    } else {
      assert history[..|history| - 1][..k] == history[..k];
      EndingsMonotone(history[..|history| - 1], k, sid);
    }
  }

  lemma EndsOnce(history: seq<Act>, sid: string, i: nat, j: nat)
    requires Endings(history, sid) <= 1 && i < j < |history| && history[i] == EndedEmitted(sid)
    ensures history[j] != EndedEmitted(sid)
  {
    AtLeast(history[..j], sid, i);
    EndingsMonotone(history, j + 1, sid);
    assert history[..j + 1] == history[..j] + [history[j]];
    StandingAppend(history[..j], history[j], sid, "");
  }

  lemma EndedMeansAnnounced(history: seq<Act>, sid: string)
    ensures Endings(history, sid) > 0 <==> exists i :: 0 <= i < |history| && history[i] == EndedEmitted(sid)
  {
    if i :| 0 <= i < |history| && history[i] == EndedEmitted(sid) {
      AtLeast(history, sid, i);
    } else {
      NoEnding(history, sid);
    }
  }

  /** The end of a session is announced exactly when it has ended, and then once. */
  lemma EndedIsAnnouncedOnce(es: seq<Event>, sid: string)
    ensures var s := Run(es);
            sid in s.sessions && s.sessions[sid].ended <==> exists i :: 0 <= i < |s.history| && s.history[i] == EndedEmitted(sid)
    ensures var h := Run(es).history;
            forall i, j :: 0 <= i < j < |h| && h[i] == EndedEmitted(sid) ==> h[j] != EndedEmitted(sid)
  {
    var s := Run(es);
    var h := s.history;
    RunKeeps(es);
    assert EndingsOk(s, sid);
    EndedMeansAnnounced(h, sid);
    forall i, j | 0 <= i < j < |h| && h[i] == EndedEmitted(sid) ensures h[j] != EndedEmitted(sid) {
      EndsOnce(h, sid, i, j);
    }
  }

  /** Nobody speaks or plays after the end. */
  lemma NothingAfterTheEnd(es: seq<Event>, i: nat, j: nat)
    requires i < j < |Run(es).history| && Run(es).history[i].EndedEmitted?
    requires Run(es).history[j].sessionId == Run(es).history[i].sessionId
    ensures !Run(es).history[j].Spoke? && !Run(es).history[j].Played?
  {
    RunKeeps(es);
    assert ActOk(Run(es), j);
    AtLeast(Run(es).history[..j], Run(es).history[i].sessionId, i);
  }
}
