/** The Raft node as a value: the state of the actor and what each handler makes of it.
    `RaftNode` is the mutable object; its methods are proved against these functions. */
module NodeModel {
  import opened Bytes
  import opened Log
  import opened SnapshotCodec

  /** A node's name: the UTF-8 bytes of the configured string. */
  type NodeId = Bytes

  datatype Role = Follower | Candidate | Leader

  /** `peers` are all *other* members, in configuration order. */
  datatype Config = Config(id: NodeId, peers: seq<NodeId>) {
    function ClusterSize(): nat {
      |peers| + 1
    }

    function Quorum(): nat {
      ClusterSize() / 2 + 1
    }
  }

  datatype VoteRequest = VoteRequest(term: nat, candidate: NodeId, lastLogIndex: nat, lastLogTerm: nat)
  datatype VoteResponse = VoteResponse(term: nat, granted: bool)

  datatype AppendRequest = AppendRequest(
    term: nat, leader: NodeId, prevLogIndex: nat, prevLogTerm: nat, entries: seq<LogEntry>, leaderCommit: nat)
  datatype AppendResponse = AppendResponse(term: nat, success: bool, conflictIndex: nat, conflictTerm: nat)

  datatype Snapshot = Snapshot(lastIndex: nat, lastTerm: nat, data: Bytes)
  datatype InstallRequest = InstallRequest(term: nat, leader: NodeId, snapshot: Snapshot)
  datatype InstallResponse = InstallResponse(term: nat, success: bool)

  datatype Request =
    | VoteCall(vote: VoteRequest)
    | AppendCall(append: AppendRequest)
    | InstallCall(install: InstallRequest)
  datatype Response =
    | VoteReply(vote: VoteResponse)
    | AppendReply(append: AppendResponse)
    | InstallReply(install: InstallResponse)

  /** Where the actor is: ready for the next message, or inside the `join_all` of one of its rounds.
      `sent[i]` is the request that went to `peers[i]`. */
  datatype Phase =
    | Idle
    | Electing(ballot: VoteRequest)
    | Replicating(upTo: nat, sent: seq<Request>)
    | Heartbeating(beat: AppendRequest)

  /** What survives a crash. */
  datatype Durable = Durable(term: nat, votedFor: Option<NodeId>, log: Log, snapshot: Option<Snapshot>)

  datatype WriteError = NotLeader(hint: Option<NodeId>) | AppendFailed | QuorumNotReached
  datatype WriteResult = Committed(index: nat) | Failed(error: WriteError)

  const SNAPSHOT_TRIGGER: nat := 100

  function Min(a: nat, b: nat): nat {
    if a < b then a else b
  }

  function Max(a: nat, b: nat): nat {
    if a < b then b else a
  }

  /** `m` with every peer set to `v`, one after the other. */
  function SetAll(m: map<NodeId, nat>, peers: seq<NodeId>, v: nat): (r: map<NodeId, nat>)
    ensures forall p :: p in r <==> p in m || p in peers
    ensures forall p :: p in r ==> r[p] == if p in peers then v else m[p]
  {
    if peers == [] then m else SetAll(m, peers[..|peers| - 1], v)[peers[|peers| - 1] := v]
  }

  datatype NodeState = NodeState(
    config: Config,
    term: nat,
    votedFor: Option<NodeId>,
    log: Log,
    role: Role,
    commitIndex: nat,
    currentLeader: Option<NodeId>,
    nextIndex: map<NodeId, nat>,
    matchIndex: map<NodeId, nat>,
    snapshot: Option<Snapshot>,
    sinceSnapshot: nat,
    phase: Phase)
  {
    function Disk(): Durable {
      Durable(term, votedFor, log, snapshot)
    }

    function AdvanceTerm(newTerm: nat): NodeState {
      this.(term := newTerm, votedFor := None)
    }

    function RecordVote(candidate: NodeId): NodeState {
      this.(votedFor := Some(candidate))
    }

    function BecomeFollower(leader: Option<NodeId>): NodeState {
      this.(role := Follower, currentLeader := if leader.Some? then leader else currentLeader)
    }

    /** The reaction to a response that carries a higher term. */
    function StepDown(newTerm: nat): NodeState {
      AdvanceTerm(newTerm).BecomeFollower(None)
    }

    function BecomeLeader(): NodeState {
      this.(role := Leader,
            currentLeader := Some(config.id),
            nextIndex := SetAll(nextIndex, config.peers, log.LastIndex() + 1),
            matchIndex := SetAll(matchIndex, config.peers, 0))
    }

    function NextFor(peer: NodeId, upTo: nat): nat {
      if peer in nextIndex then nextIndex[peer] else upTo + 1
    }
  }

  /** The actor as `start` builds it from what is on disk. */
  function Restart(config: Config, disk: Durable): NodeState {
    NodeState(config, disk.term, disk.votedFor, disk.log, Follower, 0, None, map[], map[], disk.snapshot, 0, Idle)
  }

  const FRESH_DISK := Durable(0, None, EMPTY, None)

  // ---- AppendEntries ----

  /** The term and role a node has once it accepted a request of a leader at `term`. */
  function Follow(s: NodeState, term: nat, leader: NodeId): NodeState {
    (if term > s.term then s.AdvanceTerm(term) else s).BecomeFollower(Some(leader))
  }

  /** The conflict hint of a failed consistency check; None when the check passes. */
  function Conflict(log: Log, prevIndex: nat, prevTerm: nat): Option<(nat, nat)> {
    if prevIndex == 0 then None
    else
      match log.TermAt(prevIndex)
      case None => Some((log.LastIndex() + 1, 0))
      case Some(t) =>
        if t == prevTerm then None
        else
          match log.FirstIndexOfTerm(t)
          case None => Some((prevIndex, t))
          case Some(first) => Some((first, t))
  }

  function MergeOne(log: Log, e: LogEntry): Log {
    match log.TermAt(e.index)
    case None => log.Append(e.term, e.data)
    case Some(t) => if t == e.term then log else log.TruncateFrom(e.index).Append(e.term, e.data)
  }

  function Merge(log: Log, entries: seq<LogEntry>): Log
    decreases |entries|
  {
    if entries == [] then log else Merge(MergeOne(log, entries[0]), entries[1..])
  }

  function Reject(s: NodeState, conflict: (nat, nat)): AppendResponse {
    AppendResponse(s.term, false, conflict.0, conflict.1)
  }

  function OnAppendEntries(s: NodeState, req: AppendRequest): (NodeState, AppendResponse) {
    if req.term < s.term then (s, Reject(s, (0, 0)))
    else
      var f := Follow(s, req.term, req.leader);
      match Conflict(f.log, req.prevLogIndex, req.prevLogTerm)
      case Some(c) => (f, Reject(f, c))
      case None =>
        var log := Merge(f.log, req.entries);
        var commit :=
          if req.leaderCommit > f.commitIndex then Min(req.leaderCommit, log.LastIndex()) else f.commitIndex;
        (f.(log := log, commitIndex := commit), AppendResponse(f.term, true, 0, 0))
  }

  // ---- RequestVote ----

  /** The up-to-date check of the Raft paper, section 5.4.1. */
  predicate UpToDate(lastTerm: nat, lastIndex: nat, log: Log) {
    lastTerm > log.LastTerm() || (lastTerm == log.LastTerm() && lastIndex >= log.LastIndex())
  }

  function OnRequestVote(s: NodeState, req: VoteRequest): (NodeState, VoteResponse) {
    var f := if req.term > s.term then s.AdvanceTerm(req.term).(role := Follower) else s;
    if req.term < f.term then (f, VoteResponse(f.term, false))
    else if f.votedFor.Some? && f.votedFor.value != req.candidate then (f, VoteResponse(f.term, false))
    else if !UpToDate(req.lastLogTerm, req.lastLogIndex, f.log) then (f, VoteResponse(f.term, false))
    else (f.RecordVote(req.candidate), VoteResponse(f.term, true))
  }

  // ---- Elections ----

  function BeginElection(s: NodeState): NodeState {
    var c := s.AdvanceTerm(s.term + 1).RecordVote(s.config.id).(role := Candidate);
    c.(phase := Electing(VoteRequest(c.term, s.config.id, c.log.LastIndex(), c.log.LastTerm())))
  }

  /** The state of a counting loop: the node, the count so far, and whether a higher term ended it. */
  datatype Count = Count(node: NodeState, count: nat, steppedDown: bool)

  /** The loop over the vote responses from the i-th on; an absent response is a failed call. */
  function CountVotes(s: NodeState, results: seq<Option<VoteResponse>>, i: nat, votes: nat): Count
    requires i <= |results|
    decreases |results| - i
  {
    if i == |results| then Count(s, votes, false)
    else if results[i] == None then CountVotes(s, results, i + 1, votes)
    else
      var resp := results[i].value;
      if resp.term > s.term then Count(s.StepDown(resp.term), votes, true)
      else CountVotes(s, results, i + 1, if resp.granted then votes + 1 else votes)
  }

  function FinishElection(s: NodeState, results: seq<Option<VoteResponse>>): NodeState {
    var c := CountVotes(s, results, 0, 1);
    var n := c.node;
    (if c.steppedDown || n.role != Candidate then n
     else if c.count >= n.config.Quorum() then n.BecomeLeader()
     else n.(role := Follower)).(phase := Idle)
  }

  // ---- Client writes ----

  function BuildAppend(s: NodeState, peer: NodeId, upTo: nat): AppendRequest {
    var next := s.NextFor(peer, upTo);
    var prev := if next == 0 then 0 else next - 1;
    var prevTerm := match s.log.TermAt(prev) case None => 0 case Some(t) => t;
    AppendRequest(s.term, s.config.id, prev, prevTerm, UpTo(s.log.EntriesFrom(next), upTo), s.commitIndex)
  }

  /** What goes to `peer` in this round: its missing entries, or the snapshot when they are compacted away. */
  function BuildRequest(s: NodeState, peer: NodeId, upTo: nat): Request {
    if s.NextFor(peer, upTo) <= s.log.snapshotIndex && s.snapshot.Some? then
      InstallCall(InstallRequest(s.term, s.config.id, s.snapshot.value))
    else
      AppendCall(BuildAppend(s, peer, upTo))
  }

  function BuildRequests(s: NodeState, upTo: nat): (sent: seq<Request>)
    ensures |sent| == |s.config.peers|
  {
    seq(|s.config.peers|, i requires 0 <= i < |s.config.peers| => BuildRequest(s, s.config.peers[i], upTo))
  }

  function BeginWrite(s: NodeState, data: Bytes): (NodeState, Option<WriteError>) {
    if s.role != Leader then (s, Some(NotLeader(s.currentLeader)))
    else
      var a := s.(log := s.log.Append(s.term, data));
      var upTo := a.log.LastIndex();
      (a.(phase := Replicating(upTo, BuildRequests(a, upTo))), None)
  }

  /** The effect of one AppendEntries response on the leader. */
  function TakeAppendReply(s: NodeState, peer: NodeId, resp: AppendResponse, upTo: nat): NodeState {
    if resp.success then
      s.(matchIndex := s.matchIndex[peer := upTo], nextIndex := s.nextIndex[peer := upTo + 1])
    else if resp.conflictIndex > 0 then
      s.(nextIndex := s.nextIndex[peer := resp.conflictIndex])
    else s
  }

  function TakeInstallReply(s: NodeState, peer: NodeId, resp: InstallResponse): NodeState {
    if resp.success then
      s.(matchIndex := s.matchIndex[peer := s.log.snapshotIndex],
         nextIndex := s.nextIndex[peer := s.log.snapshotIndex + 1])
    else s
  }

  /** The loop over the AppendEntries responses of a round, from the i-th peer on. */
  function CountAppends(s: NodeState, peers: seq<NodeId>, results: seq<Option<Response>>, i: nat, upTo: nat,
      acks: nat): Count
    requires |peers| == |results| && i <= |results|
    decreases |results| - i
  {
    if i == |results| then Count(s, acks, false)
    else if !(results[i].Some? && results[i].value.AppendReply?) then
      CountAppends(s, peers, results, i + 1, upTo, acks)
    else
      var resp := results[i].value.append;
      if resp.term > s.term then Count(s.StepDown(resp.term), acks, true)
      else CountAppends(TakeAppendReply(s, peers[i], resp, upTo), peers, results, i + 1, upTo,
                        if resp.success then acks + 1 else acks)
  }

  /** The loop over the InstallSnapshot responses of a round, from the i-th peer on. */
  function CountInstalls(s: NodeState, peers: seq<NodeId>, results: seq<Option<Response>>, i: nat, acks: nat): Count
    requires |peers| == |results| && i <= |results|
    decreases |results| - i
  {
    if i == |results| then Count(s, acks, false)
    else if !(results[i].Some? && results[i].value.InstallReply?) then
      CountInstalls(s, peers, results, i + 1, acks)
    else
      var resp := results[i].value.install;
      if resp.term > s.term then Count(s.StepDown(resp.term), acks, true)
      else CountInstalls(TakeInstallReply(s, peers[i], resp), peers, results, i + 1,
                         if resp.success then acks + 1 else acks)
  }

  /** Both loops; the acknowledgments counted before a higher term showed up still count. */
  function CountReplies(s: NodeState, results: seq<Option<Response>>, upTo: nat): Count
    requires |s.config.peers| == |results|
  {
    var c := CountAppends(s, s.config.peers, results, 0, upTo, 1);
    if c.steppedDown then c else CountInstalls(c.node, s.config.peers, results, 0, c.count)
  }

  /** `saved`: whether the snapshot file could be written. */
  function TakeSnapshot(s: NodeState, saved: bool): NodeState {
    var last := s.commitIndex;
    if last == 0 || !saved then s
    else
      var lastTerm := match s.log.TermAt(last) case None => s.log.snapshotTerm case Some(t) => t;
      var committed := UpTo(s.log.EntriesFrom(s.log.snapshotIndex + 1), last);
      s.(log := s.log.Compact(last, lastTerm),
         snapshot := Some(Snapshot(last, lastTerm, EntriesBytes(committed))),
         sinceSnapshot := 0)
  }

  function FinishWrite(s: NodeState, upTo: nat, results: seq<Option<Response>>, saved: bool): (NodeState, WriteResult)
    requires |s.config.peers| == |results|
  {
    var c := CountReplies(s, results, upTo);
    var n := c.node.(phase := Idle);
    if c.count < s.config.Quorum() then (n, Failed(QuorumNotReached))
    else
      var m := n.(commitIndex := upTo, sinceSnapshot := n.sinceSnapshot + 1);
      (if m.sinceSnapshot >= SNAPSHOT_TRIGGER then TakeSnapshot(m, saved) else m, Committed(upTo))
  }

  // ---- Heartbeats ----

  function BeginHeartbeat(s: NodeState): NodeState {
    s.(phase := Heartbeating(
         AppendRequest(s.term, s.config.id, s.log.LastIndex(), s.log.LastTerm(), [], s.commitIndex)))
  }

  function CountBeats(s: NodeState, results: seq<Option<AppendResponse>>, i: nat): NodeState
    requires i <= |results|
    decreases |results| - i
  {
    if i == |results| then s
    else if results[i].Some? && results[i].value.term > s.term then s.StepDown(results[i].value.term)
    else CountBeats(s, results, i + 1)
  }

  function FinishHeartbeat(s: NodeState, results: seq<Option<AppendResponse>>): NodeState {
    CountBeats(s, results, 0).(phase := Idle)
  }

  // ---- InstallSnapshot ----

  function OnInstallSnapshot(s: NodeState, req: InstallRequest, saved: bool): (NodeState, InstallResponse) {
    if req.term < s.term then (s, InstallResponse(s.term, false))
    else
      var f := Follow(s, req.term, req.leader);
      var last := req.snapshot.lastIndex;
      if last <= f.log.snapshotIndex then (f, InstallResponse(f.term, true))
      else if !saved then (f, InstallResponse(f.term, false))
      else
        (f.(log := f.log.InstallSnapshot(last, req.snapshot.lastTerm),
            commitIndex := Max(f.commitIndex, last),
            sinceSnapshot := 0,
            snapshot := Some(req.snapshot)),
         InstallResponse(f.term, true))
  }

  // ---- The actor's steps, and the durable writes each makes on the way ----

  /** What can happen to a node that is up: a timer, a client, a delivered request, or the end of a round. */
  datatype Action =
    | Timeout
    | ClientWrite(data: Bytes)
    | Deliver(req: Request, saved: bool)
    | VotesCounted(votes: seq<Option<VoteResponse>>)
    | WriteCounted(results: seq<Option<Response>>, saved: bool)
    | BeatsCounted(beats: seq<Option<AppendResponse>>)

  /** The actor takes messages and timeouts only between rounds; a round ends with one result per peer. */
  predicate Ready(s: NodeState, act: Action) {
    match act
    case Timeout => s.phase.Idle?
    case ClientWrite(_) => s.phase.Idle?
    case Deliver(_, _) => s.phase.Idle?
    case VotesCounted(votes) => s.phase.Electing? && |votes| == |s.config.peers|
    case WriteCounted(results, _) => s.phase.Replicating? && |results| == |s.config.peers|
    case BeatsCounted(beats) => s.phase.Heartbeating? && |beats| == |s.config.peers|
  }

  function Serve(s: NodeState, req: Request, saved: bool): (NodeState, Response) {
    match req
    case VoteCall(vote) => var (n, resp) := OnRequestVote(s, vote); (n, VoteReply(resp))
    case AppendCall(append) => var (n, resp) := OnAppendEntries(s, append); (n, AppendReply(resp))
    case InstallCall(install) => var (n, resp) := OnInstallSnapshot(s, install, saved); (n, InstallReply(resp))
  }

  function Step(s: NodeState, act: Action): NodeState
    requires Ready(s, act)
  {
    match act
    case Timeout => if s.role == Leader then BeginHeartbeat(s) else BeginElection(s)
    case ClientWrite(data) => BeginWrite(s, data).0
    case Deliver(req, saved) => Serve(s, req, saved).0
    case VotesCounted(votes) => FinishElection(s, votes)
    case WriteCounted(results, saved) => FinishWrite(s, s.phase.upTo, results, saved).0
    case BeatsCounted(beats) => FinishHeartbeat(s, beats)
  }

  /** The logs that merging one entry leaves on disk, one per record written. */
  function MergeOneWrites(log: Log, e: LogEntry): seq<Log> {
    match log.TermAt(e.index)
    case None => [log.Append(e.term, e.data)]
    case Some(t) =>
      if t == e.term then []
      else (if log.Truncates(e.index) then [log.TruncateFrom(e.index)] else [])
           + [log.TruncateFrom(e.index).Append(e.term, e.data)]
  }

  function MergeWrites(log: Log, entries: seq<LogEntry>): seq<Log>
    decreases |entries|
  {
    if entries == [] then [] else MergeOneWrites(log, entries[0]) + MergeWrites(MergeOne(log, entries[0]), entries[1..])
  }

  function TermWrites(s: NodeState, term: nat): seq<Durable> {
    if term > s.term then [s.AdvanceTerm(term).Disk()] else []
  }

  function WithLogs(s: NodeState, logs: seq<Log>): (ds: seq<Durable>)
    ensures |ds| == |logs|
    ensures forall i :: 0 <= i < |ds| ==> ds[i] == s.(log := logs[i]).Disk()
  {
    seq(|logs|, i requires 0 <= i < |logs| => s.(log := logs[i]).Disk())
  }

  function VoteWrites(s: NodeState, req: VoteRequest): seq<Durable> {
    TermWrites(s, req.term) + if OnRequestVote(s, req).1.granted then [OnRequestVote(s, req).0.Disk()] else []
  }

  function AppendWrites(s: NodeState, req: AppendRequest): seq<Durable> {
    if req.term < s.term then []
    else
      var f := Follow(s, req.term, req.leader);
      TermWrites(s, req.term)
      + if Conflict(f.log, req.prevLogIndex, req.prevLogTerm).Some? then []
        else WithLogs(f, MergeWrites(f.log, req.entries))
  }

  function InstallWrites(s: NodeState, req: InstallRequest, saved: bool): seq<Durable> {
    if req.term < s.term then []
    else
      var f := Follow(s, req.term, req.leader);
      TermWrites(s, req.term)
      + if saved && req.snapshot.lastIndex > f.log.snapshotIndex
        then [f.(snapshot := Some(req.snapshot)).Disk(), OnInstallSnapshot(s, req, saved).0.Disk()]
        else []
  }

  /** The write of a counting loop that ended in stepping down. */
  function CountedWrites(s: NodeState, n: NodeState): seq<Durable> {
    if n.term != s.term then [n.Disk()] else []
  }

  /** A snapshot is saved before the log is compacted. */
  function SnapshotWrites(s: NodeState, saved: bool): seq<Durable> {
    if s.commitIndex == 0 || !saved then []
    else
      var n := TakeSnapshot(s, saved);
      [s.(snapshot := n.snapshot).Disk()] + if s.commitIndex > s.log.snapshotIndex then [n.Disk()] else []
  }

  function FinishWrites(s: NodeState, upTo: nat, results: seq<Option<Response>>, saved: bool): seq<Durable>
    requires |s.config.peers| == |results|
  {
    var c := CountReplies(s, results, upTo);
    CountedWrites(s, c.node)
    + if c.count < s.config.Quorum() || c.node.sinceSnapshot + 1 < SNAPSHOT_TRIGGER then []
      else SnapshotWrites(c.node.(phase := Idle, commitIndex := upTo, sinceSnapshot := c.node.sinceSnapshot + 1), saved)
  }

  /** The contents of the disk after each durable write of a step, in order. */
  function Writes(s: NodeState, act: Action): seq<Durable>
    requires Ready(s, act)
  {
    match act
    case Timeout =>
      if s.role == Leader then []
      else [s.AdvanceTerm(s.term + 1).Disk(), s.AdvanceTerm(s.term + 1).RecordVote(s.config.id).Disk()]
    case ClientWrite(data) => if s.role != Leader then [] else [BeginWrite(s, data).0.Disk()]
    case Deliver(VoteCall(vote), _) => VoteWrites(s, vote)
    case Deliver(AppendCall(append), _) => AppendWrites(s, append)
    case Deliver(InstallCall(install), saved) => InstallWrites(s, install, saved)
    case VotesCounted(votes) => CountedWrites(s, FinishElection(s, votes))
    case WriteCounted(results, saved) => FinishWrites(s, s.phase.upTo, results, saved)
    case BeatsCounted(beats) => CountedWrites(s, FinishHeartbeat(s, beats))
  }
}
