/** The connection thread of an SV2 link as an object: answers, publication and submission. */
module Connection {
  import opened Base
  import opened Blake2b
  import opened Exchange
  import opened Jobs
  import opened Scan
  import opened SessionObject
  import Codec
  import Framing
  import L = ShareLedger
  import M = Miner
  import Q = Scheduler
  import V = Sv2

  /** What the connection thread owns. */
  datatype Desk = Desk(session: V.State, pending: set<nat>, nextId: nat, tally: M.Tally)

  function Answered(d: Desk, v: Option<M.Verdict>): Desk {
    if v.Some? && v.value.id in d.pending
    then d.(pending := d.pending - {v.value.id}, tally := M.Count(d.tally, v.value))
    else d
  }

  /** One queued find outside draining: skipped when stale, otherwise checked and submitted. */
  function Offered(d: Desk, f: Q.Find): Option<Desk> {
    hide M.Solved, V.Valid, V.SubmitShare;
    if !V.Valid(d.session, f.job) then Some(d)
    else if |d.pending| >= L.MAX_OUTSTANDING || !M.Solved(f) || d.nextId > 0xffff_ffff then None
    else
      match V.SubmitShare(d.session, f.job, f.nonce, d.nextId)
      case None => None
      case Some(r) => Some(d.(session := r.state, pending := d.pending + {d.nextId}, nextId := d.nextId + 1))
  }

  function OfferedAll(d: Desk, fs: seq<Q.Find>): Option<Desk>
    decreases |fs|
  {
    hide Offered;
    if fs == [] then Some(d)
    else match Offered(d, fs[0])
         case None => None
         case Some(e) => OfferedAll(e, fs[1..])
  }

  function DeskOf(m: M.State): Desk
    requires m.link.V2?
  {
    Desk(m.link.s2.state, m.pending, m.nextId, m.tally)
  }

  /** Handling a reply in the interleaved model does to the desk what Answered says. */
  lemma ReplyAgrees(m: M.State)
    requires m.link.V2? && m.phase.Replies? && m.phase.rs != []
    ensures DeskOf(M.HandleReply(m).value) == Answered(DeskOf(m), M.VerdictOf(m.phase.rs[0]))
  {
  }

  /** Submitting a find in the interleaved model does to the desk what Offered says. */
  lemma SubmitAgrees(m: M.State)
    requires m.link.V2? && m.sched.queue != [] && !m.draining
    ensures var n := M.SubmitFind(m); var d := Offered(DeskOf(m), m.sched.queue[0]);
            (n.Some? <==> d.Some?) && (n.Some? ==> n.value.link.V2? && DeskOf(n.value) == d.value)
  {
    hide M.Solved, Q.Dropped;
  }

  /** The connection thread and the board between two steps of the loop. */
  datatype Snapshot = Snapshot(desk: Desk, board: Q.Shared, activated: bool, draining: bool)

  /** The session's reaction to the frames that a read completes. */
  ghost function Received(c: Framing.Cipher, d: Framing.Dec, s: V.State, b: Bytes): Option<V.Reaction> {
    match Framing.ReadSegment(c, d, b) case Failure => None case Success((_, fs)) => V.HandleFrames(s, fs)
  }

  function Answer(s: Snapshot, r: V.Reply): Snapshot {
    var t := s.(desk := Answered(s.desk, M.VerdictOf(r)));
    if !s.draining && s.desk.session.current.Some?
    then t.(board := s.board.(work := s.desk.session.current), activated := true)
    else t
  }

  function AnswerAll(s: Snapshot, rs: seq<V.Reply>): Snapshot
    decreases |rs|
  {
    if rs == [] then s else AnswerAll(Answer(s, rs[0]), rs[1..])
  }

  /** A whole iteration; None ends the connection. */
  function Iterated(s: Snapshot, reaction: Option<V.Reaction>): Option<Snapshot> {
    match reaction
    case None => None
    case Some(r) =>
      var t := AnswerAll(s.(desk := s.desk.(session := r.state)), r.replies);
      if t.board.failure then None
      else
        var u := t.(board := t.board.(found := []));
        if t.draining then Some(u)
        else match OfferedAll(t.desk, t.board.found)
             case None => None
             case Some(d) => Some(u.(desk := d))
  }

  class Loop {
    const session: Session
    const board: Board
    var pending: set<nat>
    var nextId: nat
    var tally: M.Tally
    var activated: bool
    var draining: bool

    ghost function View(): Desk
      reads this, session
    {
      Desk(session.View(), pending, nextId, tally)
    }

    /** The loop and the board together. */
    ghost function Whole(): Snapshot
      reads this, session, board
    {
      Snapshot(View(), board.View(), activated, draining)
    }

    constructor (session: Session, board: Board)
      ensures this.session == session && this.board == board
      ensures View() == Desk(session.View(), {}, M.FIRST_ID, M.Tally(0, 0, 0)) && !activated && !draining
    {
      this.session, this.board := session, board;
      pending, nextId, tally, activated, draining := {}, M.FIRST_ID, M.Tally(0, 0, 0), false, false;
    }

    /** Close the share a reply answers, then publish the current job unless draining. */
    method Handle(r: V.Reply)
      modifies this`pending, this`tally, this`activated, board`work
      ensures View() == Answered(old(View()), M.VerdictOf(r))
      ensures Whole() == Answer(old(Whole()), r)
    {
      var v := M.VerdictOf(r);
      if v.Some? && v.value.id in pending {
        match v.value {
          case Accept(_) => tally := tally.(accepted := tally.accepted + 1);
          case Refuse(_, code) =>
            if code == M.STALE {
              tally := tally.(stale := tally.stale + 1);
            } else {
              tally := tally.(rejected := tally.rejected + 1);
            }
        }
        pending := pending - {v.value.id};
      }
      if !draining && session.current.Some? {
        board.Publish(session.current);
        activated := board.work.Some?;
      }
    }

    /** Check a find independently and submit it. */
    method Offer(f: Q.Find) returns (ok: bool)
      requires session.Ready()
      modifies this`pending, this`nextId, session`pending, session`lastSent, session`written, session.noise`sent
      ensures var d := Offered(old(View()), f);
              if d.Some? then ok && session.Ready() && View() == d.value else !ok
    {
      hide HashOf, V.SubmitShare;
      if !session.IsValid(f.job) {
        return true;
      }
      if |pending| >= L.MAX_OUTSTANDING {
        return false;
      }
      var header := Stamp(f.job.work.header, f.nonce);
      var hash := Hash80(header);
      if !Meets(hash, f.job.work.target) || nextId > 0xffff_ffff {
        return false;
      }
      var sent := session.Submit(f.job, f.nonce, nextId);
      if !sent {
        return false;
      }
      pending := pending + {nextId};
      nextId := nextId + 1;
      return true;
    }

    /** Go through the finds taken from the board; false ends the connection. */
    method SubmitAll(queue: seq<Q.Find>) returns (ok: bool)
      requires session.Ready()
      modifies this`pending, this`nextId, session`pending, session`lastSent, session`written, session.noise`sent
      ensures draining ==> ok && View() == old(View()) && session.Ready()
      ensures !draining ==>
                (var d := OfferedAll(old(View()), queue);
                 if d.Some? then ok && session.Ready() && View() == d.value else !ok)
    {
      hide Offered, Session.Ready, Session.View;
      if draining {
        return true;
      }
      assert queue[0..] == queue;
      for i := 0 to |queue|
        invariant session.Ready() && OfferedAll(old(View()), queue) == OfferedAll(View(), queue[i..])
      {
        assert queue[i..][1..] == queue[i + 1..];
        var done := Offer(queue[i]);
        if !done {
          return false;
        }
      }
      return true;
    }

    /**
      One iteration on what a socket read delivered: receive, answer every reply, take the finds, submit
      them. False ends the connection.
     */
    method Iterate(b: Bytes) returns (ok: bool)
      requires session.Ready()
      modifies this`pending, this`nextId, this`tally, this`activated
      modifies session, session.noise, board`work, board`found
      ensures var it := Iterated(old(Whole()), Received(session.noise.inbound, old(session.noise.Decoder()),
                                                        old(session.View()), b));
              if it.Some? then ok && session.Ready() && Whole() == it.value else !ok
    {
      hide Session.View, Session.Ready, Offered, Answer, V.HandleFrames, Framing.ReadSegment;
      ghost var start := Whole();
      ghost var reaction := Received(session.noise.inbound, session.noise.Decoder(), session.View(), b);
      var received, replies := session.Receive(b);
      if !received {
        return false;
      }
      ghost var s := start.(desk := start.desk.(session := reaction.value.state));
      assert replies[0..] == replies;
      for i := 0 to |replies|
        invariant session.Ready() && board.failure == old(board.failure) && draining == old(draining)
        invariant AnswerAll(s, replies) == AnswerAll(Whole(), replies[i..])
      {
        assert replies[i..][1..] == replies[i + 1..];
        Handle(replies[i]);
      }
      var queue := board.Drain();
      if queue.Failure? {
        return false;
      }
      ok := SubmitAll(queue.value);
    }
  }

  method Stamp(h: Header, nonce: u64) returns (header: Header)
    ensures header == WithNonce(h, nonce)
  {
    var b := StoreLe(nonce);
    header := h[..32] + b + h[40..];
  }

  method Hash80(h: Header) returns (hash: Hash)
    ensures hash == HashOf(h)
  {
    hide HashOf;
    var r := Blake2b256(h);
    hash := r.value;
  }
}
