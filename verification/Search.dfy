/** A leader's search for the place where a follower's log meets its own, when either log may be compacted: it ends
    with an accepted request or with a snapshot being sent, or it never ends. */
module Search {
  import opened Bytes
  import opened Log
  import opened NodeModel

  /** What a leader at `next` asks about, and what the follower's log says to it. */
  function Hint(leader: Log, follower: Log, next: nat): Option<(nat, nat)>
    requires next >= 1
  {
    Conflict(follower, next - 1, match leader.TermAt(next - 1) case None => 0 case Some(t) => t)
  }

  /** At `next` the leader sends its snapshot, or the follower accepts the request. */
  predicate Ended(leader: Log, follower: Log, next: nat)
    requires next >= 1
  {
    next <= leader.snapshotIndex || Hint(leader, follower, next) == None
  }

  lemma HintIsPositive(leader: Log, follower: Log, next: nat)
    requires follower.Valid() && next >= 1 && Hint(leader, follower, next).Some?
    ensures Hint(leader, follower, next).value.0 >= 1
  {
    if follower.TermAt(next - 1).Some? {
      FindTermIsLeast(follower.entries, follower.snapshotIndex, follower.TermAt(next - 1).value);
    }
  }

  /** The next index after one round. */
  ghost function Go(leader: Log, follower: Log, next: nat): (r: nat)
    requires follower.Valid() && next >= 1
    ensures r >= 1
  {
    if Ended(leader, follower, next) then next
    else
      HintIsPositive(leader, follower, next);
      Hint(leader, follower, next).value.0
  }

  /** The next index after `n` rounds between logs that stay as they are. */
  ghost function NextAfter(leader: Log, follower: Log, next: nat, n: nat): (r: nat)
    requires follower.Valid() && next >= 1
    ensures r >= 1
    decreases n
  {
    if n == 0 then next else NextAfter(leader, follower, Go(leader, follower, next), n - 1)
  }

  ghost predicate Ends(leader: Log, follower: Log, next: nat)
    requires follower.Valid() && next >= 1
  {
    exists n: nat :: Ended(leader, follower, NextAfter(leader, follower, next, n))
  }

  /** The request of a round is a snapshot exactly at or below the leader's snapshot point; otherwise it is rejected
      exactly if there is a hint, and the leader goes where the hint says. */
  lemma RoundFollowsHint(l: NodeState, follower: NodeState, peer: NodeId, upTo: nat)
    requires peer in l.nextIndex && l.nextIndex[peer] >= 1 && follower.term <= l.term && follower.log.Valid()
    requires l.log.snapshotIndex > 0 ==> l.snapshot.Some?
    ensures var (next, req) := (l.nextIndex[peer], BuildRequest(l, peer, upTo));
            if next <= l.log.snapshotIndex then req.InstallCall?
            else
              var resp := OnAppendEntries(follower, req.append).1;
              && req.AppendCall?
              && resp.success == Ended(l.log, follower.log, next)
              && (!resp.success ==>
                    && OnAppendEntries(follower, req.append).0.log == follower.log
                    && TakeAppendReply(l, peer, resp, upTo).NextFor(peer, upTo) == Go(l.log, follower.log, next))
  {
    var next := l.nextIndex[peer];
    if next > l.log.snapshotIndex && Hint(l.log, follower.log, next).Some? {
      HintIsPositive(l.log, follower.log, next);
    }
  }

  // ---- Terms along a log ----

  ghost predicate SortedTerms(log: Log) {
    forall i: nat, j: nat :: i <= j && log.TermAt(i).Some? && log.TermAt(j).Some? ==>
      1 <= log.TermAt(i).value <= log.TermAt(j).value
  }

  /** Log matching, as far as both logs still know their terms. */
  ghost predicate TermsMatch(a: Log, b: Log) {
    forall i: nat, j: nat ::
      j <= i && a.TermAt(i).Some? && a.TermAt(i) == b.TermAt(i) && a.TermAt(j).Some? && b.TermAt(j).Some? ==>
        a.TermAt(j) == b.TermAt(j)
  }

  function Leading(entries: seq<LogEntry>, term: nat): (r: nat)
    ensures r <= |entries|
    ensures forall i :: 0 <= i < r ==> entries[i].term == term
    ensures r < |entries| ==> entries[r].term != term
  {
    if entries == [] || entries[0].term != term then 0 else 1 + Leading(entries[1..], term)
  }

  /** The last index that carries the term of the snapshot point, in a log with sorted terms. */
  function MarkerEnd(log: Log): nat {
    log.snapshotIndex + Leading(log.entries, log.snapshotTerm)
  }

  lemma MarkerEndIsLast(log: Log, i: nat)
    requires SortedTerms(log) && log.snapshotIndex >= 1
    ensures log.TermAt(i) == Some(log.snapshotTerm) <==> log.snapshotIndex <= i <= MarkerEnd(log)
  {
    var p, s := MarkerEnd(log), log.snapshotIndex;
    if s < i && i - s - 1 < |log.entries| {
      if i > p {
        assert log.TermAt(s) == Some(log.snapshotTerm);
        assert log.TermAt(p + 1).value != log.snapshotTerm;
        assert log.TermAt(s).value <= log.TermAt(p + 1).value <= log.TermAt(i).value;
      }
    }
  }

  // ---- One round ----

  /** A conflict at a retained index leads to the start of its term: the snapshot point for the marker's term, and
      otherwise an index past that term, and never further up. */
  lemma HintAtRetained(log: Log, prev: nat, prevTerm: nat)
    requires log.Valid() && SortedTerms(log)
    requires 1 <= prev && log.snapshotIndex <= prev <= log.LastIndex()
    requires Conflict(log, prev, prevTerm).Some?
    ensures var hint := Conflict(log, prev, prevTerm).value.0;
            && 1 <= hint <= prev && log.snapshotIndex <= hint
            && (log.snapshotIndex >= 1 && prev <= MarkerEnd(log) ==> hint == log.snapshotIndex)
            && (log.snapshotIndex >= 1 && prev > MarkerEnd(log) ==> MarkerEnd(log) < hint)
  {
    var t := log.TermAt(prev).value;
    FirstIndexIsLeast(log, t);
    if log.snapshotIndex >= 1 {
      MarkerEndIsLast(log, prev);
      MarkerEndIsLast(log, log.FirstIndexOfTerm(t).value);
    }
  }

  lemma HintElsewhere(log: Log, prev: nat, prevTerm: nat)
    requires 1 <= prev && (prev < log.snapshotIndex || prev > log.LastIndex())
    ensures Conflict(log, prev, prevTerm) == Some((log.LastIndex() + 1, 0))
  {}

  lemma EndsNow(leader: Log, follower: Log, next: nat)
    requires follower.Valid() && next >= 1 && Ended(leader, follower, next)
    ensures Ends(leader, follower, next)
  {
    assert NextAfter(leader, follower, next, 0) == next;
  }

  lemma EndsLater(leader: Log, follower: Log, next: nat)
    requires follower.Valid() && next >= 1 && Ends(leader, follower, Go(leader, follower, next))
    ensures Ends(leader, follower, next)
  {
    var after := Go(leader, follower, next);
    var n: nat :| Ended(leader, follower, NextAfter(leader, follower, after, n));
    assert NextAfter(leader, follower, next, n + 1) == NextAfter(leader, follower, after, n);
  }

  // ---- Searches that end ----

  /** Where the leader cannot be led below the follower's snapshot point, every round takes it further down. */
  lemma {:induction false} Descends(leader: Log, follower: Log, next: nat)
    requires follower.Valid() && SortedTerms(follower) && next >= 1
    requires follower.snapshotIndex <= 1 || leader.snapshotIndex >= follower.snapshotIndex
    ensures Ends(leader, follower, next)
    decreases next
  {
    if Ended(leader, follower, next) {
      EndsNow(leader, follower, next);
    } else {
      LowerNext(leader, follower, next);
      Descends(leader, follower, Go(leader, follower, next));
      EndsLater(leader, follower, next);
    }
  }

  lemma LowerNext(leader: Log, follower: Log, next: nat)
    requires follower.Valid() && SortedTerms(follower) && next >= 1 && !Ended(leader, follower, next)
    requires next - 1 >= follower.snapshotIndex
    ensures Go(leader, follower, next) < next
  {
    var asked := match leader.TermAt(next - 1) case None => 0 case Some(t) => t;
    if next - 1 <= follower.LastIndex() {
      HintAtRetained(follower, next - 1, asked);
    } else {
      HintElsewhere(follower, next - 1, asked);
    }
  }

  /** What a rejected round above the follower's snapshot point does. */
  lemma GoCases(leader: Log, follower: Log, next: nat)
    requires follower.Valid() && SortedTerms(follower) && follower.snapshotIndex >= 1
    requires next >= 1 && !Ended(leader, follower, next)
    ensures var s, p, last := follower.snapshotIndex, MarkerEnd(follower), follower.LastIndex();
            var gone := Go(leader, follower, next);
            && (next - 1 < s || next - 1 > last ==> gone == last + 1)
            && (s <= next - 1 <= p ==> gone == s)
            && (p < next - 1 <= last ==> p < gone < next)
  {
    var asked := match leader.TermAt(next - 1) case None => 0 case Some(t) => t;
    if follower.snapshotIndex <= next - 1 <= follower.LastIndex() {
      HintAtRetained(follower, next - 1, asked);
    } else {
      HintElsewhere(follower, next - 1, asked);
    }
  }

  /** Down from the end of the follower's log, term by term, to the last entry of the marker's term. */
  lemma {:induction false} DescendsToMarker(leader: Log, follower: Log, next: nat)
    requires follower.Valid() && SortedTerms(follower) && follower.snapshotIndex >= 1
    requires leader.TermAt(MarkerEnd(follower)) == Some(follower.snapshotTerm)
    requires MarkerEnd(follower) <= next - 1 <= follower.LastIndex()
    ensures Ends(leader, follower, next)
    decreases next
  {
    if Ended(leader, follower, next) {
      EndsNow(leader, follower, next);
    } else {
      MarkerEndIsLast(follower, next - 1);
      GoCases(leader, follower, next);
      DescendsToMarker(leader, follower, Go(leader, follower, next));
      EndsLater(leader, follower, next);
    }
  }

  lemma EndsAtMarker(leader: Log, follower: Log, next: nat)
    requires follower.Valid() && SortedTerms(follower) && follower.snapshotIndex >= 1 && next >= 1
    requires leader.TermAt(MarkerEnd(follower)) == Some(follower.snapshotTerm)
    ensures Ends(leader, follower, next)
  {
    var s, last := follower.snapshotIndex, follower.LastIndex();
    DescendsToMarker(leader, follower, last + 1);
    if Ended(leader, follower, next) {
      EndsNow(leader, follower, next);
    } else if MarkerEnd(follower) <= next - 1 <= last {
      DescendsToMarker(leader, follower, next);
    } else {
      GoCases(leader, follower, next);
      if s <= next - 1 < MarkerEnd(follower) {
        if Ended(leader, follower, s) {
          EndsNow(leader, follower, s);
        } else {
          GoCases(leader, follower, s);
          EndsLater(leader, follower, s);
        }
      }
      EndsLater(leader, follower, next);
    }
  }

  // ---- Searches that do not ----

  ghost predicate Stuck(leader: Log, follower: Log, next: nat) {
    && next >= 2 && next > leader.snapshotIndex
    && (follower.snapshotIndex <= next - 1 < MarkerEnd(follower) ==>
          leader.TermAt(next - 1) != Some(follower.snapshotTerm))
  }

  /** The leader has no snapshot to send, and disputes the last entry of the marker's term. */
  ghost predicate Disputes(leader: Log, follower: Log) {
    && follower.Valid() && SortedTerms(follower) && TermsMatch(leader, follower)
    && follower.snapshotIndex >= 2 && leader.snapshotIndex < follower.snapshotIndex
    && leader.TermAt(MarkerEnd(follower)) != Some(follower.snapshotTerm)
  }

  lemma StuckIsRejected(leader: Log, follower: Log, next: nat)
    requires Disputes(leader, follower) && Stuck(leader, follower, next)
    ensures !Ended(leader, follower, next)
  {
    MarkerEndIsLast(follower, next - 1);
    AgreementReachesMarker(leader, follower, next - 1);
  }

  lemma AgreementReachesMarker(leader: Log, follower: Log, i: nat)
    requires SortedTerms(follower) && TermsMatch(leader, follower)
    requires follower.snapshotIndex >= 2 && leader.snapshotIndex < follower.snapshotIndex
    ensures MarkerEnd(follower) <= i && leader.TermAt(i).Some? && leader.TermAt(i) == follower.TermAt(i) ==>
              leader.TermAt(MarkerEnd(follower)) == Some(follower.snapshotTerm)
  {
    var p := MarkerEnd(follower);
    MarkerEndIsLast(follower, p);
    if p <= i && leader.TermAt(i).Some? && leader.TermAt(i) == follower.TermAt(i) {
      assert leader.TermAt(p).Some?;
    }
  }

  lemma {:induction false} NeverEnds(leader: Log, follower: Log, next: nat, n: nat)
    requires Disputes(leader, follower) && Stuck(leader, follower, next)
    ensures !Ended(leader, follower, NextAfter(leader, follower, next, n))
    decreases n
  {
    StuckIsRejected(leader, follower, next);
    if n > 0 {
      GoCases(leader, follower, next);
      NeverEnds(leader, follower, Go(leader, follower, next), n - 1);
    }
  }

  /** The retained index at which the marker's term decides: the last one of that term, or a lower one if the search
      starts there. */
  function Decisive(follower: Log, next: nat): nat
    requires next >= 1
  {
    if follower.snapshotIndex <= next - 1 < MarkerEnd(follower) then next - 1 else MarkerEnd(follower)
  }

  /** The search for the next index ends, with an accepted request or with a snapshot, if and only if the follower has
      compacted at most one entry, or the leader has compacted as much as the follower, or it starts at the beginning or
      where a snapshot is due, or both have the marker's term at the decisive index. Otherwise it goes on for ever. */
  lemma SearchEnds(leader: Log, follower: Log, next: nat)
    requires follower.Valid() && SortedTerms(follower) && TermsMatch(leader, follower) && next >= 1
    ensures Ends(leader, follower, next)
            <==> || follower.snapshotIndex <= 1
                 || leader.snapshotIndex >= follower.snapshotIndex
                 || next == 1 || next <= leader.snapshotIndex
                 || leader.TermAt(Decisive(follower, next)) == Some(follower.snapshotTerm)
  {
    var s, p, ts := follower.snapshotIndex, MarkerEnd(follower), follower.snapshotTerm;
    if s <= 1 || leader.snapshotIndex >= s {
      Descends(leader, follower, next);
    } else if next == 1 || next <= leader.snapshotIndex {
      EndsNow(leader, follower, next);
    } else if leader.TermAt(p) == Some(ts) {
      EndsAtMarker(leader, follower, next);
      SameBelow(leader, follower, next);
    } else if Decisive(follower, next) != p && leader.TermAt(next - 1) == Some(ts) {
      MarkerEndIsLast(follower, next - 1);
      EndsNow(leader, follower, next);
    } else {
      forall n: nat
        ensures !Ended(leader, follower, NextAfter(leader, follower, next, n))
      {
        NeverEnds(leader, follower, next, n);
      }
    }
  }

  lemma SameBelow(leader: Log, follower: Log, next: nat)
    requires SortedTerms(follower) && TermsMatch(leader, follower) && next >= 1
    requires follower.snapshotIndex >= 2 && leader.snapshotIndex < follower.snapshotIndex
    requires leader.TermAt(MarkerEnd(follower)) == Some(follower.snapshotTerm)
    ensures leader.TermAt(Decisive(follower, next)) == Some(follower.snapshotTerm)
  {
    var p, d := MarkerEnd(follower), Decisive(follower, next);
    MarkerEndIsLast(follower, p);
    MarkerEndIsLast(follower, d);
    assert leader.TermAt(p) == follower.TermAt(p) && leader.TermAt(d).Some?;
  }

  /** It does go on for ever when a leader replaced, in a later term, the entry that a follower appended behind its
      snapshot while it was itself the leader. */
  lemma SearchGoesOnForEver(compacted: nat, data: Bytes) returns (leader: Log, follower: Log)
    requires compacted >= 2
    ensures leader == Log(0, 0, seq(compacted + 1, i requires 0 <= i <= compacted =>
                                      LogEntry(if i < compacted then 1 else 2, i + 1, data)))
    ensures follower == Log(compacted, 1, [LogEntry(1, compacted + 1, data)])
    ensures leader.Valid() && follower.Valid() && SortedTerms(leader) && SortedTerms(follower)
    ensures TermsMatch(leader, follower)
    ensures !Ends(leader, follower, leader.LastIndex() + 1)
  {
    leader := Log(0, 0, seq(compacted + 1, i requires 0 <= i <= compacted =>
                              LogEntry(if i < compacted then 1 else 2, i + 1, data)));
    follower := Log(compacted, 1, [LogEntry(1, compacted + 1, data)]);
    assert Leading(follower.entries, 1) == 1;
    SearchEnds(leader, follower, leader.LastIndex() + 1);
  }
}
