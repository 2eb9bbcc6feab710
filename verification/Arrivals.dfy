/** What an input queue takes in is what it hands out and what it still holds. */
module Arrivals {
  import opened FrameSets
  import opened FsProtocolSpec
  import opened FsProtocolInvariants
  import opened FsProtocolShutdown
  import opened Connection
  import opened ReadyMarks
  import opened Delivery
  import Q = FsQueueSpec

  // ---------- One arrival ----------

  /** An unsequenced frameset is taken exactly if there is room. It goes to the head, in front of all that was
      queued. */
  lemma UnsequencedContents(u: Q.Queue, fs: FrameSet)
    requires !Sequenced(fs)
    ensures var (v, ok) := Q.InqSorted(u, fs);
            && (ok <==> !Q.Full(u))
            && multiset(v.q) == multiset(u.q) + (if ok then multiset{fs} else multiset{})
            && (ok ==> v.q != [] && v.q[0] == fs && v.q[1..] == u.q)
            && v == u.(q := v.q)
  {
    assert multiset([fs] + u.q) == multiset{fs} + multiset(u.q);
  }

  /** This frameset is of a later session than a queue that has one. */
  predicate Raises(u: Q.Queue, fs: FrameSet) {
    Sequenced(fs) && u.session != 0 && SessionOf(fs) > u.session
  }

  /** The frameset adds to the queue: there is room, and its ids are neither past nor queued. */
  predicate IsNew(u: Q.Queue, fs: FrameSet) {
    !Q.Full(u)
    && (Sequenced(fs) ==>
          && (u.session == 0 || SessionOf(fs) == u.session)
          && GetSeqno(fs).value.reqid >= Q.EnterSession(u, GetSeqno(fs).value).next
          && !Q.Queued(u.q, GetSeqno(fs).value.reqid))
  }

  /** An arrival that does not move the queue to a later session adds itself if it is new, and loses nothing. */
  lemma ArrivalContents(u: Q.Queue, fs: FrameSet)
    requires Q.InOk(u) && !Raises(u, fs) && (Sequenced(fs) ==> SessionOf(fs) != 0)
    ensures var (v, ok) := Q.InqSorted(u, fs);
            && multiset(v.q) == multiset(u.q) + (if IsNew(u, fs) then multiset{fs} else multiset{})
            && (IsNew(u, fs) ==> ok)
  {
    hide Q.InsertSorted, Q.Queued, Compare;
    if !Sequenced(fs) {
      UnsequencedContents(u, fs);
    } else if u.session == 0 || SessionOf(fs) == u.session {
      var w := Q.EnterSession(u, GetSeqno(fs).value);
      if u.session == 0 { NothingSequenced(u); }
      Q.EnterSessionKeeps(u, GetSeqno(fs).value);
      Q.InsertContents(w.q, fs, w.session);
    }
  }

  lemma NothingSequenced(u: Q.Queue)
    requires Q.InOk(u) && u.session == 0
    ensures forall i :: 0 <= i < |u.q| ==> !Sequenced(u.q[i])
  {
  }

  /** A move to a later session keeps only the frameset that caused it, and that only if it is accepted. */
  lemma RaiseContents(u: Q.Queue, fs: FrameSet)
    requires Raises(u, fs)
    ensures var (v, ok) := Q.InqSorted(u, fs);
            && v.session == SessionOf(fs) && v.next == 1
            && (ok <==> GetSeqno(fs).value.reqid >= 1)
            && v.q == if ok then [fs] else []
  {
    hide Q.InsertSorted;
    assert Q.InsertSorted([], fs) == [fs] by { Q.InsertPlace([], fs, 0); }
  }

  // ---------- Runs ----------

  /** What an operation takes into the input queue. */
  function TakenIn<K>(f: Focus<K>, op: Op): multiset<FrameSet> {
    if op.Arrive? && op.fs.fstype != ACK && op.fs.fstype != CONNNAK && IsNew(f.e.inq, op.fs) then multiset{op.fs}
    else multiset{}
  }

  /** What an operation hands to the client. */
  function GivenOut<K>(f: Focus<K>, op: Op): multiset<FrameSet>
    requires Enabled(f, op)
  {
    if op.Read? then multiset{f.e.inq.q[0]} else multiset{}
  }

  /** The operation throws the input queue away: a frameset of a later session arrives, or the connection is closed. */
  predicate Resets<K(==)>(f: Focus<K>, op: Op, now: nat, cfg: Config)
    requires Enabled(f, op)
  {
    (op.Arrive? && op.fs.fstype != ACK && op.fs.fstype != CONNNAK && Raises(f.e.inq, op.fs))
    || Step(f, op, now, cfg).e.inq != Mid(f, op)
  }

  lemma MidConserves<K>(f: Focus<K>, op: Op)
    requires Q.InOk(f.e.inq) && Enabled(f, op)
    requires op.Arrive? && op.fs.fstype != ACK && op.fs.fstype != CONNNAK ==> !Raises(f.e.inq, op.fs)
    ensures multiset(Mid(f, op).q) + GivenOut(f, op) == multiset(f.e.inq.q) + TakenIn(f, op)
  {
    hide Q.InqSorted, IsNew;
    if op.Read? {
      assert f.e.inq.q == [f.e.inq.q[0]] + f.e.inq.q[1..];
    } else if op.Arrive? && op.fs.fstype != ACK && op.fs.fstype != CONNNAK {
      ArrivalContents(f.e.inq, op.fs);
    }
  }

  /** A reset leaves nothing of what was queued: the queue is empty, or holds the frameset of the later session. */
  lemma ResetEmpties<K>(f: Focus<K>, op: Op, now: nat, cfg: Config)
    requires Good(f, cfg) && Enabled(f, op) && Resets(f, op, now, cfg)
    ensures var q := Step(f, op, now, cfg).e.inq.q; q == [] || (op.Arrive? && q == [op.fs])
  {
    hide Good, Step, Mid, Q.InqSorted;
    StepMid(f, op, now, cfg);
    if op.Arrive? && op.fs.fstype != ACK && op.fs.fstype != CONNNAK && Raises(f.e.inq, op.fs) {
      RaiseContents(f.e.inq, op.fs);
      MidIsFiled(f, op);
    }
  }

  lemma MidIsFiled<K>(f: Focus<K>, op: Op)
    requires Enabled(f, op) && op.Arrive? && op.fs.fstype != ACK && op.fs.fstype != CONNNAK
    ensures Mid(f, op).q == Q.InqSorted(f.e.inq, op.fs).0.q
  {
    hide Q.InqSorted;
  }

  /** No operation of this run throws the input queue away. */
  predicate Uninterrupted<K(==)>(f: Focus<K>, events: seq<Event>, cfg: Config)
    requires Possible(f, events, cfg)
    decreases |events|
  {
    events != [] ==>
      && !Resets(f, events[0].op, events[0].now, cfg)
      && Uninterrupted(Step(f, events[0].op, events[0].now, cfg), events[1..], cfg)
  }

  function AllTakenIn<K(==)>(f: Focus<K>, events: seq<Event>, cfg: Config): multiset<FrameSet>
    requires Possible(f, events, cfg)
    decreases |events|
  {
    if events == [] then multiset{}
    else TakenIn(f, events[0].op) + AllTakenIn(Step(f, events[0].op, events[0].now, cfg), events[1..], cfg)
  }

  function AllGivenOut<K(==)>(f: Focus<K>, events: seq<Event>, cfg: Config): multiset<FrameSet>
    requires Possible(f, events, cfg)
    decreases |events|
  {
    if events == [] then multiset{}
    else GivenOut(f, events[0].op) + AllGivenOut(Step(f, events[0].op, events[0].now, cfg), events[1..], cfg)
  }

  /** Between resets, whatever a connection takes in, sequenced or not, is handed out or still queued, each as often as
      it was taken in. */
  lemma {:induction false} NothingLost<K>(f: Focus<K>, events: seq<Event>, cfg: Config)
    requires Good(f, cfg) && Possible(f, events, cfg) && Uninterrupted(f, events, cfg)
    ensures multiset(f.e.inq.q) + AllTakenIn(f, events, cfg)
            == multiset(Exec(f, events, cfg).e.inq.q) + AllGivenOut(f, events, cfg)
    decreases |events|
  {
    hide Good, Step, Enabled, Mid, TakenIn, GivenOut;
    if events == [] {
    } else {
      var op, now := events[0].op, events[0].now;
      assert Q.InOk(f.e.inq) by { GoodChained(f, cfg); }
      MidConserves(f, op);
      StepKeepsGood(f, op, now, cfg);
      var g := Step(f, op, now, cfg);
      NothingLost(g, events[1..], cfg);
      Balance(multiset(f.e.inq.q), TakenIn(f, op), GivenOut(f, op), multiset(g.e.inq.q),
              AllTakenIn(g, events[1..], cfg), AllGivenOut(g, events[1..], cfg),
              multiset(Exec(f, events, cfg).e.inq.q));
    }
  }

  lemma Balance<T>(a: multiset<T>, taken: multiset<T>, given: multiset<T>, b: multiset<T>, moreTaken: multiset<T>,
          moreGiven: multiset<T>, c: multiset<T>)
    requires b + given == a + taken && b + moreTaken == c + moreGiven
    ensures a + (taken + moreTaken) == c + (given + moreGiven)
  {
    forall x | true ensures (a + (taken + moreTaken))[x] == (c + (given + moreGiven))[x] {
      assert (b + given)[x] == (a + taken)[x];
      assert (b + moreTaken)[x] == (c + moreGiven)[x];
    }
  }
}
