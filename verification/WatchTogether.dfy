/** Watch-together sessions, with every service call one step on the stored sessions. `history` records
    what happened; its approvals, rejections and endings are the events the service emits. */
module WatchTogether {
  import opened Common
  import opened Text

  const SESSION_TTL_MS := 6 * 60 * 60 * 1000
  const WATCH_CHAT_HISTORY_CAP := 100

  datatype Status = Pending | Approved | Rejected

  datatype Message = Message(userId: string, body: string)

  /** A session row with its participant rows and its messages, oldest first. */
  datatype Session = Session(
    hostId: string, postId: string, requireHostApproval: bool, expiresAt: int, ended: bool,
    rows: map<string, Status>, messages: seq<Message>, position: real, isPlaying: bool)

  datatype Act =
    | Entered(sessionId: string, userId: string)
    | Requested(sessionId: string, userId: string)
    | HostApproved(sessionId: string, hostId: string, userId: string)
    | HostRejected(sessionId: string, hostId: string, userId: string)
    | Left(sessionId: string, userId: string)
    | Spoke(sessionId: string, userId: string, body: string)
    | Played(sessionId: string, userId: string)
    | EndedEmitted(sessionId: string)

  datatype State = State(sessions: map<string, Session>, history: seq<Act>)

  datatype WatchError =
    | PostNotFound | NoVideo | UnlockFirst
    | SessionNotFound | SessionEnded | SessionExpired
    | HostOnly | NotForHost | NoPendingRequest | EmptyMessage | NotAParticipant | CannotJoin

  // Checks ----------------------------------------------------------------------------------------

  /** The post as a watcher finds it: published, not deleted. */
  datatype Post = Post(authorId: string, mediaTypes: seq<string>, blocks: Option<seq<seq<string>>>, monetized: bool)

  predicate HasVideo(p: Post) {
    "video" in p.mediaTypes || (p.blocks.Some? && exists i :: 0 <= i < |p.blocks.value| && "video" in p.blocks.value[i])
  }

  /** `assertUserCanAccessPostVideo` */
  function CanWatch(post: Option<Post>, unlocked: bool, userId: string): Result<(), WatchError> {
    if post.None? then Failure(PostNotFound)
    else if !HasVideo(post.value) then Failure(NoVideo)
    else if post.value.authorId == userId || !post.value.monetized || unlocked then Success(())
    else Failure(UnlockFirst)
  }

  /** The session, if it is active and not past its expiry. */
  function Live(s: State, sid: string, now: int): Result<Session, WatchError> {
    if sid !in s.sessions then Failure(SessionNotFound)
    else if s.sessions[sid].ended then Failure(SessionEnded)
    else if s.sessions[sid].expiresAt <= now then Failure(SessionExpired)
    else Success(s.sessions[sid])
  }

  function RowOf(s: State, sid: string, userId: string): Option<Status> {
    if sid in s.sessions && userId in s.sessions[sid].rows then Some(s.sessions[sid].rows[userId]) else None
  }

  /** `assertApprovedParticipant`: the host passes without a look at the participant rows. */
  function AssertApproved(s: State, sid: string, userId: string, now: int): Result<(), WatchError> {
    match Live(s, sid, now)
    case Failure(e) => Failure(e)
    case Success(w) =>
      if w.hostId == userId || RowOf(s, sid, userId) == Some(Approved) then Success(()) else Failure(NotAParticipant)
  }

  /** The check of `updatePlaybackState`: everyone, the host too, needs an approved row. */
  function AssertApprovedRow(s: State, sid: string, userId: string, now: int): Result<(), WatchError> {
    match Live(s, sid, now)
    case Failure(e) => Failure(e)
    case Success(_) => if RowOf(s, sid, userId) == Some(Approved) then Success(()) else Failure(NotAParticipant)
  }

  function Body(raw: string): string {
    var t := Trim(raw);
    if |t| <= 2000 then t else t[..2000]
  }

  // The operations --------------------------------------------------------------------------------

  function Set(s: State, sid: string, w: Session): State {
    s.(sessions := s.sessions[sid := w])
  }

  function Put(s: State, sid: string, w: Session, act: Act): State {
    State(s.sessions[sid := w], s.history + [act])
  }

  function CreateOp(s: State, sid: string, hostId: string, postId: string, requireHostApproval: bool,
                    post: Option<Post>, unlocked: bool, now: int): (State, Result<Session, WatchError>)
  {
    match CanWatch(post, unlocked, hostId)
    case Failure(e) => (s, Failure(e))
    case Success(_) =>
      var w := Session(hostId, postId, requireHostApproval, now + SESSION_TTL_MS, false, map[hostId := Approved], [], 0.0, false);
      (Set(s, sid, w), Success(w))
  }

  /** What a registration reports: is the viewer waiting, and did this call put them there. */
  datatype Joined = Joined(isPending: bool, isNewPending: bool)

  function RegisterOp(s: State, sid: string, userId: string, post: Option<Post>, unlocked: bool, now: int): (State, Result<Joined, WatchError>) {
    match Live(s, sid, now)
    case Failure(e) => (s, Failure(e))
    case Success(w) =>
      match CanWatch(post, unlocked, userId)
      case Failure(e) => (s, Failure(e))
      case Success(_) =>
        if w.hostId == userId then (Set(s, sid, w.(rows := w.rows[userId := Approved])), Success(Joined(false, false)))
        else if userId !in w.rows || w.rows[userId] == Rejected then
          if w.requireHostApproval then
            (Put(s, sid, w.(rows := w.rows[userId := Pending]), Requested(sid, userId)), Success(Joined(true, true)))
          else (Put(s, sid, w.(rows := w.rows[userId := Approved]), Entered(sid, userId)), Success(Joined(false, false)))
        else (s, Success(Joined(w.rows[userId] == Pending, false)))
  }

  /** What a viewer is shown: a pending one sees only who is in and who is waiting. */
  datatype View = PendingView(approved: set<string>, pending: set<string>) | FullView(session: Session)

  function GetSessionOp(s: State, sid: string, userId: string, post: Option<Post>, unlocked: bool, now: int): (State, Result<View, WatchError>) {
    if sid !in s.sessions then (s, Failure(SessionNotFound))
    else
      var w := s.sessions[sid];
      if w.hostId == userId || userId in w.rows then (s, Shown(w, userId))
      else
        var (s', r) := RegisterOp(s, sid, userId, post, unlocked, now);
        match r
        case Failure(e) => (s', Failure(e))
        case Success(_) => (s', Shown(s'.sessions[sid], userId))
  }

  function Shown(w: Session, userId: string): Result<View, WatchError> {
    if w.hostId == userId then Success(FullView(w))
    else if userId !in w.rows then Failure(SessionNotFound)
    else
      match w.rows[userId]
      case Rejected => Failure(CannotJoin)
      case Pending => Success(PendingView(With(w.rows, Approved), With(w.rows, Pending)))
      case Approved => Success(FullView(w))
  }

  function With(rows: map<string, Status>, status: Status): set<string> {
    set u | u in rows && rows[u] == status
  }

  /** `approveParticipant` and `rejectParticipant`: the host moves a pending row. */
  function DecideOp(s: State, sid: string, callerId: string, targetId: string, accept: bool): (State, Result<(), WatchError>) {
    if sid !in s.sessions then (s, Failure(SessionNotFound))
    else
      var w := s.sessions[sid];
      if w.hostId != callerId then (s, Failure(HostOnly))
      else if targetId == callerId then (s, Failure(NotForHost))
      else if RowOf(s, sid, targetId) != Some(Pending) then (s, Failure(NoPendingRequest))
      else if accept then (Put(s, sid, w.(rows := w.rows[targetId := Approved]), HostApproved(sid, callerId, targetId)), Success(()))
      else (Put(s, sid, w.(rows := w.rows[targetId := Rejected]), HostRejected(sid, callerId, targetId)), Success(()))
  }

  function AppendOp(s: State, sid: string, userId: string, raw: string, now: int): (State, Result<Message, WatchError>) {
    var body := Body(raw);
    if body == "" then (s, Failure(EmptyMessage))
    else
      match AssertApproved(s, sid, userId, now)
      case Failure(e) => (s, Failure(e))
      case Success(_) =>
        var w, m := s.sessions[sid], Message(userId, body);
        (Put(s, sid, w.(messages := w.messages + [m]), Spoke(sid, userId, body)), Success(m))
  }

  /** A position that is not finite counts as zero. */
  function PlaybackOp(s: State, sid: string, userId: string, position: Option<real>, isPlaying: bool, now: int): (State, Result<real, WatchError>) {
    match AssertApprovedRow(s, sid, userId, now)
    case Failure(e) => (s, Failure(e))
    case Success(_) =>
      var safe := if position.Some? && position.value >= 0.0 then position.value else 0.0;
      (Put(s, sid, s.sessions[sid].(position := safe, isPlaying := isPlaying), Played(sid, userId)), Success(safe))
  }

  /** A session is marked as ended, its messages go, and the event is emitted. */
  function EndOne(s: State, sid: string): State
    requires sid in s.sessions
  {
    Put(s, sid, s.sessions[sid].(ended := true, messages := []), EndedEmitted(sid))
  }

  function EndOp(s: State, sid: string, userId: string): (State, Result<(), WatchError>) {
    if sid !in s.sessions then (s, Failure(SessionNotFound))
    else if s.sessions[sid].hostId != userId then (s, Failure(HostOnly))
    else if s.sessions[sid].ended then (s, Success(()))
    else (EndOne(s, sid), Success(()))
  }

  function LeaveOp(s: State, sid: string, userId: string): State {
    if sid !in s.sessions then s
    else
      var w := s.sessions[sid];
      if w.hostId == userId then EndOp(s, sid, userId).0
      else Put(s, sid, w.(rows := w.rows - {userId}), Left(sid, userId))
  }

  function Stale(s: State, now: int): set<string> {
    set sid | sid in s.sessions && !s.sessions[sid].ended && s.sessions[sid].expiresAt < now
  }

  /** The rows of the expiry query, in any order. */
  ghost predicate ListsStale(s: State, now: int, order: seq<string>) {
    && Distinct(order)
    && (forall i :: 0 <= i < |order| ==> order[i] in Stale(s, now))
    && (forall sid :: sid in Stale(s, now) ==> sid in order)
  }

  function EndAll(s: State, order: seq<string>): (r: State)
    requires forall i :: 0 <= i < |order| ==> order[i] in s.sessions
    ensures r.sessions.Keys == s.sessions.Keys
  {
    if order == [] then s else EndOne(EndAll(s, order[..|order| - 1]), order[|order| - 1])
  }

  /** The clean-up has ended the listed sessions; those in `rest` are still to come. */
  ghost predicate Underway(was: State, now: int, order: seq<string>, rest: set<string>, s: State) {
    && rest <= Stale(was, now)
    && Distinct(order)
    && (forall i :: 0 <= i < |order| ==> order[i] in Stale(was, now) && order[i] !in rest)
    && (forall sid :: sid in Stale(was, now) && sid !in rest ==> sid in order)
    && s == EndAll(was, order)
  }

  lemma EndFirst(was: State, now: int)
    ensures Underway(was, now, [], Stale(was, now), was)
  {
  }

  lemma EndLast(was: State, now: int, order: seq<string>, s: State)
    requires Underway(was, now, order, {}, s)
    ensures ListsStale(was, now, order) && s == EndAll(was, order)
  {
  }

  lemma EndNext(was: State, now: int, order: seq<string>, rest: set<string>, s: State, sid: string)
    requires Underway(was, now, order, rest, s) && sid in rest
    ensures sid in s.sessions
    ensures Underway(was, now, order + [sid], rest - {sid}, EndOne(s, sid))
  {
    assert (order + [sid])[..|order|] == order;
  }

  // What the checks and operations mean, in full ----------------------------------------------------

  /** Who may watch: the author, everyone if the post is free, and whoever unlocked it; after the post has
      been found and has a video. */
  lemma CanWatchMeans(post: Option<Post>, unlocked: bool, userId: string)
    ensures var r := CanWatch(post, unlocked, userId);
            var video := post.Some? &&
              ("video" in post.value.mediaTypes
               || (post.value.blocks.Some? && exists b :: b in post.value.blocks.value && "video" in b));
            && (r == Failure(PostNotFound) <==> post.None?)
            && (r == Failure(NoVideo) <==> post.Some? && !video)
            && (r == Failure(UnlockFirst) <==> video && post.value.authorId != userId && post.value.monetized && !unlocked)
            && (r.Success? <==> video && (post.value.authorId == userId || !post.value.monetized || unlocked))
  {
    if post.Some? && post.value.blocks.Some? {
      var blocks := post.value.blocks.value;
      assert forall i :: 0 <= i < |blocks| ==> blocks[i] in blocks;
    }
  }

  /** Which sessions are live, and who counts as a participant. */
  lemma LiveMeans(s: State, sid: string, userId: string, now: int)
    ensures Live(s, sid, now) == Failure(SessionNotFound) <==> sid !in s.sessions
    ensures Live(s, sid, now) == Failure(SessionEnded) <==> sid in s.sessions && s.sessions[sid].ended
    ensures Live(s, sid, now) == Failure(SessionExpired) <==>
            sid in s.sessions && !s.sessions[sid].ended && s.sessions[sid].expiresAt <= now
    ensures Live(s, sid, now).Success? ==> sid in s.sessions && Live(s, sid, now).value == s.sessions[sid]
    ensures AssertApproved(s, sid, userId, now).Success? <==>
            && sid in s.sessions && !s.sessions[sid].ended && now < s.sessions[sid].expiresAt
            && (s.sessions[sid].hostId == userId || (userId in s.sessions[sid].rows && s.sessions[sid].rows[userId] == Approved))
    ensures AssertApprovedRow(s, sid, userId, now).Success? <==>
            && sid in s.sessions && !s.sessions[sid].ended && now < s.sessions[sid].expiresAt
            && userId in s.sessions[sid].rows && s.sessions[sid].rows[userId] == Approved
  {
  }

  /** A new session lives six hours and has its host as approved participant. */
  lemma CreateMeans(s: State, sid: string, hostId: string, postId: string, flag: bool, post: Option<Post>, unlocked: bool, now: int)
    ensures var (s', r) := CreateOp(s, sid, hostId, postId, flag, post, unlocked, now);
            && (r.Success? <==> CanWatch(post, unlocked, hostId).Success?)
            && (r.Failure? ==> s' == s && r.error == CanWatch(post, unlocked, hostId).error)
            && (r.Success? ==>
                  && r.value == Session(hostId, postId, flag, now + 21600000, false, map[hostId := Approved], [], 0.0, false)
                  && s' == State(s.sessions[sid := r.value], s.history))
  {
  }

  /** Registering: the host is approved; who has no row or was rejected waits if approval is required and
      is in otherwise; who waits or is in stays so. */
  lemma RegisterMeans(s: State, sid: string, userId: string, post: Option<Post>, unlocked: bool, now: int)
    ensures var (s', r) := RegisterOp(s, sid, userId, post, unlocked, now);
            && (r.Success? <==>
                  sid in s.sessions && !s.sessions[sid].ended && now < s.sessions[sid].expiresAt && CanWatch(post, unlocked, userId).Success?)
            && (r.Failure? ==> s' == s)
            && (r.Success? ==>
                  var w := s.sessions[sid];
                  var newcomer := userId !in w.rows || w.rows[userId] == Rejected;
                  if userId == w.hostId then
                    s' == State(s.sessions[sid := w.(rows := w.rows[userId := Approved])], s.history) && r.value == Joined(false, false)
                  else if newcomer && w.requireHostApproval then
                    s' == State(s.sessions[sid := w.(rows := w.rows[userId := Pending])], s.history + [Requested(sid, userId)])
                    && r.value == Joined(true, true)
                  else if newcomer then
                    s' == State(s.sessions[sid := w.(rows := w.rows[userId := Approved])], s.history + [Entered(sid, userId)])
                    && r.value == Joined(false, false)
                  else s' == s && r.value == Joined(w.rows[userId] == Pending, false))
  {
  }

  /** What a viewer is shown of a session: all of it for the host and approved viewers, who is in and who
      waits for those who wait, nothing for a rejected one. */
  lemma ShownMeans(w: Session, userId: string)
    ensures var r := Shown(w, userId);
            && (userId == w.hostId ==> r == Success(FullView(w)))
            && (userId != w.hostId && userId in w.rows && w.rows[userId] == Approved ==> r == Success(FullView(w)))
            && (userId != w.hostId && userId in w.rows && w.rows[userId] == Rejected ==> r == Failure(CannotJoin))
            && (userId != w.hostId && userId in w.rows && w.rows[userId] == Pending ==>
                  && r.Success? && r.value.PendingView?
                  && (forall u :: u in r.value.approved <==> u in w.rows && w.rows[u] == Approved)
                  && (forall u :: u in r.value.pending <==> u in w.rows && w.rows[u] == Pending))
  {
  }

  /** Opening a session registers the caller only if the caller is neither the host nor has a row. */
  lemma GetSessionMeans(s: State, sid: string, userId: string, post: Option<Post>, unlocked: bool, now: int)
    ensures var (s', r) := GetSessionOp(s, sid, userId, post, unlocked, now);
            && (sid !in s.sessions ==> s' == s && r == Failure(SessionNotFound))
            && (sid in s.sessions && (s.sessions[sid].hostId == userId || userId in s.sessions[sid].rows) ==>
                  s' == s && r == Shown(s.sessions[sid], userId))
            && (sid in s.sessions && s.sessions[sid].hostId != userId && userId !in s.sessions[sid].rows ==>
                  var (s1, joined) := RegisterOp(s, sid, userId, post, unlocked, now);
                  && s' == s1
                  && (joined.Failure? ==> r.Failure? && r.error == joined.error)
                  && (joined.Success? ==> sid in s1.sessions && r == Shown(s1.sessions[sid], userId)))
  {
  }

  /** What is stored of a message: the first 2000 characters, or all, of the text without white space at its
      ends. */
  lemma BodyMeans(raw: string)
    ensures Body(raw) <= Trim(raw) && |Body(raw)| == Min(2000, |Trim(raw)|)
    ensures Body(raw) != "" ==> !IsSpace(Body(raw)[0])
  {
    TrimMeans(raw);
  }

  lemma AppendMeans(s: State, sid: string, userId: string, raw: string, now: int)
    ensures var (s', r) := AppendOp(s, sid, userId, raw, now);
            && (r == Failure(EmptyMessage) <==> Body(raw) == "")
            && (r.Success? <==> Body(raw) != "" && AssertApproved(s, sid, userId, now).Success?)
            && (r.Failure? ==> s' == s)
            && (r.Success? ==>
                  var w := s.sessions[sid];
                  && r.value == Message(userId, Body(raw))
                  && s' == State(s.sessions[sid := w.(messages := w.messages + [Message(userId, Body(raw))])],
                                 s.history + [Spoke(sid, userId, Body(raw))]))
  {
  }

  /** A negative position, or one that is no number, counts as zero. */
  lemma PlaybackMeans(s: State, sid: string, userId: string, position: Option<real>, isPlaying: bool, now: int)
    ensures var (s', r) := PlaybackOp(s, sid, userId, position, isPlaying, now);
            && (r.Success? <==> AssertApprovedRow(s, sid, userId, now).Success?)
            && (r.Failure? ==> s' == s)
            && (r.Success? ==>
                  && r.value >= 0.0 && (position.Some? && position.value >= 0.0 ==> r.value == position.value)
                  && (position.None? || position.value < 0.0 ==> r.value == 0.0)
                  && s' == State(s.sessions[sid := s.sessions[sid].(position := r.value, isPlaying := isPlaying)],
                                 s.history + [Played(sid, userId)]))
  {
  }

  /** The host ends an active session, once; leaving is ending for the host and giving up the row for others. */
  lemma EndMeans(s: State, sid: string, userId: string)
    ensures var (s', r) := EndOp(s, sid, userId);
            && (r == Failure(SessionNotFound) <==> sid !in s.sessions)
            && (r == Failure(HostOnly) <==> sid in s.sessions && s.sessions[sid].hostId != userId)
            && (r.Failure? || s.sessions[sid].ended ==> s' == s)
            && (r.Success? && !s.sessions[sid].ended ==>
                  s' == State(s.sessions[sid := s.sessions[sid].(ended := true, messages := [])], s.history + [EndedEmitted(sid)]))
    ensures sid in s.sessions ==>
              LeaveOp(s, sid, userId)
              == if s.sessions[sid].hostId == userId then EndOp(s, sid, userId).0
                 else State(s.sessions[sid := s.sessions[sid].(rows := s.sessions[sid].rows - {userId})], s.history + [Left(sid, userId)])
    ensures sid !in s.sessions ==> LeaveOp(s, sid, userId) == s
  {
  }

  /** What the clean-up looks for. */
  lemma StaleMeans(s: State, now: int, sid: string)
    ensures sid in Stale(s, now) <==> sid in s.sessions && !s.sessions[sid].ended && s.sessions[sid].expiresAt < now
  {
  }

  // The service -----------------------------------------------------------------------------------

  class WatchService {
    var sessions: map<string, Session>
    var history: seq<Act>

    constructor ()
      ensures Now() == State(map[], [])
    {
      sessions, history := map[], [];
    }

    function Now(): State
      reads this
    {
      State(sessions, history)
    }

    /** The database issues a new session id. */
    method CreateSession(sid: string, hostId: string, postId: string, requireHostApproval: bool,
                         post: Option<Post>, unlocked: bool, now: int) returns (r: Result<Session, WatchError>)
      requires sid !in sessions
      modifies this
      ensures (Now(), r) == CreateOp(old(Now()), sid, hostId, postId, requireHostApproval, post, unlocked, now)
    {
      var access := CanWatch(post, unlocked, hostId);
      if access.Failure? {
        return Failure(access.error);
      }
      var w := Session(hostId, postId, requireHostApproval, now + SESSION_TTL_MS, false, map[hostId := Approved], [], 0.0, false);
      sessions := sessions[sid := w];
      return Success(w);
    }

    method RegisterParticipant(sid: string, userId: string, post: Option<Post>, unlocked: bool, now: int)
      returns (r: Result<Joined, WatchError>)
      modifies this
      ensures (Now(), r) == RegisterOp(old(Now()), sid, userId, post, unlocked, now)
    {
      var live := Live(Now(), sid, now);
      if live.Failure? {
        return Failure(live.error);
      }
      var access := CanWatch(post, unlocked, userId);
      if access.Failure? {
        return Failure(access.error);
      }
      var w := live.value;
      if w.hostId == userId {
        sessions := sessions[sid := w.(rows := w.rows[userId := Approved])];
        return Success(Joined(false, false));
      }
      var desired := if w.requireHostApproval then Pending else Approved;
      if userId !in w.rows || w.rows[userId] == Rejected {
        sessions := sessions[sid := w.(rows := w.rows[userId := desired])];
        history := history + [if desired == Pending then Requested(sid, userId) else Entered(sid, userId)];
        return Success(Joined(desired == Pending, desired == Pending));
      }
      return Success(Joined(w.rows[userId] == Pending, false));
    }

    method GetSessionForUser(sid: string, userId: string, post: Option<Post>, unlocked: bool, now: int)
      returns (r: Result<View, WatchError>)
      modifies this
      ensures (Now(), r) == GetSessionOp(old(Now()), sid, userId, post, unlocked, now)
    {
      if sid !in sessions {
        return Failure(SessionNotFound);
      }
      if sessions[sid].hostId != userId && userId !in sessions[sid].rows {
        var joined := RegisterParticipant(sid, userId, post, unlocked, now);
        if joined.Failure? {
          return Failure(joined.error);
        }
      }
      return Shown(sessions[sid], userId);
    }

    method DecideParticipant(sid: string, callerId: string, targetId: string, accept: bool) returns (r: Result<(), WatchError>)
      modifies this
      ensures (Now(), r) == DecideOp(old(Now()), sid, callerId, targetId, accept)
      ensures r.Success? <==>
              && sid in old(sessions) && old(sessions)[sid].hostId == callerId && targetId != callerId
              && targetId in old(sessions)[sid].rows && old(sessions)[sid].rows[targetId] == Pending
      ensures r.Success? ==>
                var w := old(sessions)[sid];
                && sessions == old(sessions)[sid := w.(rows := w.rows[targetId := if accept then Approved else Rejected])]
                && history == old(history) + [if accept then HostApproved(sid, callerId, targetId) else HostRejected(sid, callerId, targetId)]
      ensures r.Failure? ==> sessions == old(sessions) && history == old(history)
      ensures r == Failure(SessionNotFound) <==> sid !in old(sessions)
      ensures r == Failure(HostOnly) <==> sid in old(sessions) && old(sessions)[sid].hostId != callerId
      ensures r == Failure(NotForHost) <==>
              sid in old(sessions) && old(sessions)[sid].hostId == callerId && targetId == callerId
    {
      if sid !in sessions {
        return Failure(SessionNotFound);
      }
      var w := sessions[sid];
      if w.hostId != callerId {
        return Failure(HostOnly);
      }
      if targetId == callerId {
        return Failure(NotForHost);
      }
      if targetId !in w.rows || w.rows[targetId] != Pending {
        return Failure(NoPendingRequest);
      }
      sessions := sessions[sid := w.(rows := w.rows[targetId := if accept then Approved else Rejected])];
      history := history + [if accept then HostApproved(sid, callerId, targetId) else HostRejected(sid, callerId, targetId)];
      return Success(());
    }

    method AppendChatMessage(sid: string, userId: string, raw: string, now: int) returns (r: Result<Message, WatchError>)
      modifies this
      ensures (Now(), r) == AppendOp(old(Now()), sid, userId, raw, now)
    {
      var body := Body(raw);
      if body == "" {
        return Failure(EmptyMessage);
      }
      var check := AssertApproved(Now(), sid, userId, now);
      if check.Failure? {
        return Failure(check.error);
      }
      var w, m := sessions[sid], Message(userId, body);
      sessions := sessions[sid := w.(messages := w.messages + [m])];
      history := history + [Spoke(sid, userId, body)];
      return Success(m);
    }

    /** The newest messages, at most `take` of them and at most 200, oldest first. */
    method ListChatHistory(sid: string, userId: string, now: int, take: int := WATCH_CHAT_HISTORY_CAP) returns (r: Result<seq<Message>, WatchError>)
      ensures r.Failure? <==> AssertApproved(Now(), sid, userId, now).Failure?
      ensures r.Failure? ==> r.error == AssertApproved(Now(), sid, userId, now).error
      ensures r.Success? ==> sid in sessions && IsLast(sessions[sid].messages, Window(take), r.value)
    {
      var check := AssertApproved(Now(), sid, userId, now);
      if check.Failure? {
        return Failure(check.error);
      }
      var lim := Min(Max(take, 1), 200);
      var all := sessions[sid].messages;
      var skip := Max(0, |all| - lim);
      return Success(Rows(all, skip, lim));
    }

    method UpdatePlaybackState(sid: string, userId: string, position: Option<real>, isPlaying: bool, now: int)
      returns (r: Result<real, WatchError>)
      modifies this
      ensures (Now(), r) == PlaybackOp(old(Now()), sid, userId, position, isPlaying, now)
    {
      var check := AssertApprovedRow(Now(), sid, userId, now);
      if check.Failure? {
        return Failure(check.error);
      }
      var safe := if position.Some? && position.value >= 0.0 then position.value else 0.0;
      sessions := sessions[sid := sessions[sid].(position := safe, isPlaying := isPlaying)];
      history := history + [Played(sid, userId)];
      return Success(safe);
    }

    method EndSession(sid: string, userId: string) returns (r: Result<(), WatchError>)
      modifies this
      ensures (Now(), r) == EndOp(old(Now()), sid, userId)
    {
      if sid !in sessions {
        return Failure(SessionNotFound);
      }
      if sessions[sid].hostId != userId {
        return Failure(HostOnly);
      }
      if sessions[sid].ended {
        return Success(());
      }
      MarkEnded(sid);
      return Success(());
    }

    /** The update, the deletion and the event that end a session. */
    method MarkEnded(sid: string)
      requires sid in sessions
      modifies this
      ensures Now() == EndOne(old(Now()), sid)
    {
      sessions := sessions[sid := sessions[sid].(ended := true)];
      DeleteSessionMessages(sid);
      history := history + [EndedEmitted(sid)];
      assert sessions == old(sessions)[sid := old(sessions)[sid].(ended := true, messages := [])];
    }

    method DeleteSessionMessages(sid: string)
      modifies this`sessions
      ensures sessions == if sid in old(sessions) then old(sessions)[sid := old(sessions)[sid].(messages := [])] else old(sessions)
    {
      if sid in sessions {
        sessions := sessions[sid := sessions[sid].(messages := [])];
      }
    }

    method LeaveSession(sid: string, userId: string)
      modifies this
      ensures Now() == LeaveOp(old(Now()), sid, userId)
    {
      if sid !in sessions {
        return;
      }
      var w := sessions[sid];
      if w.hostId == userId {
        var _ := EndSession(sid, userId);
        return;
      }
      sessions := sessions[sid := w.(rows := w.rows - {userId})];
      history := history + [Left(sid, userId)];
    }

    /** Ends exactly the active sessions past their expiry, one after the other, and counts them. */
    method CleanupExpiredSessions(now: int) returns (n: nat, ghost order: seq<string>)
      modifies this
      ensures ListsStale(old(Now()), now, order) && n == |Stale(old(Now()), now)|
      ensures forall i :: 0 <= i < |order| ==> order[i] in old(sessions)
      ensures Now() == EndAll(old(Now()), order)
    {
      ghost var was := Now();
      var rest := Stale(Now(), now);
      n, order := 0, [];
      EndFirst(was, now);
      while rest != {}
        invariant n + |rest| == |Stale(was, now)|
        invariant Underway(was, now, order, rest, Now())
        decreases |rest|
      {
        var sid :| sid in rest;
        ghost var s := Now();
        EndNext(was, now, order, rest, s, sid);
        MarkEnded(sid);
        n := n + 1;
        order := order + [sid];
        rest := rest - {sid};
      }
      EndLast(was, now, order, Now());
    }
  }

  function Window(take: int): (n: nat)
    ensures 1 <= n <= 200 && (1 <= take <= 200 ==> n == take)
  {
    if take < 1 then 1 else if take > 200 then 200 else take
  }

  /** `skip` and `take` of a query. */
  function Rows(all: seq<Message>, skip: nat, take: nat): seq<Message> {
    var from := Min(skip, |all|);
    all[from..Min(from + take, |all|)]
  }

  /** The rows are the newest `n` messages, or all of them if there are fewer. */
  predicate IsLast(all: seq<Message>, n: nat, rows: seq<Message>) {
    && |rows| == Min(n, |all|)
    && all == all[..|all| - |rows|] + rows
  }
}
