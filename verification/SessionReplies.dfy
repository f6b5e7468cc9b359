/** What an SV2 session reports besides acceptances: every refusal and every new target, in order. */
module SessionReplies {
  import opened Base
  import opened Codec
  import opened Coin
  import opened Jobs
  import opened Sv2
  import opened Targets
  import A = Answers
  import L = ShareLedger

  /** The refusals and new targets among the replies. */
  function Notes(rs: seq<Reply>): seq<Reply> {
    if rs == [] then []
    else Notes(rs[..|rs| - 1]) + if rs[|rs| - 1].ShareRefused? || rs[|rs| - 1].Retarget? then [rs[|rs| - 1]] else []
  }

  /** A refusal is reported with code 21 for a stale reason and 20 for any other, a target as it is. */
  function NoteOf(i: Input): seq<Reply> {
    match i
    case Received(Rejected(_, sequence, reason)) =>
      [ShareRefused(sequence, if A.StaleReason(reason) then 21 else 20, reason)]
    case Received(Target(_, target)) => [Retarget(target)]
    case _ => []
  }

  function NotesOf(inputs: seq<Input>): seq<Reply> {
    if inputs == [] then [] else NotesOf(inputs[..|inputs| - 1]) + NoteOf(inputs[|inputs| - 1])
  }

  lemma {:induction false} NotesJoin(a: seq<Reply>, b: seq<Reply>)
    ensures Notes(a + b) == Notes(a) + Notes(b)
  {
    if b == [] {
      assert a + b == a;
    } else {
      assert (a + b)[..|a + b| - 1] == a + b[..|b| - 1];
      NotesJoin(a, b[..|b| - 1]);
    }
  }

  lemma {:induction false} ReportsAreNoNotes(ids: seq<u32>)
    ensures Notes(Reports(ids)) == []
  {
    if ids != [] {
      assert Reports(ids)[..|ids| - 1] == Reports(ids[..|ids| - 1]);
      ReportsAreNoNotes(ids[..|ids| - 1]);
    }
  }

  lemma OneNote(r: Reply)
    ensures Notes([r]) == if r.ShareRefused? || r.Retarget? then [r] else []
  {
    assert [r][..0] == [];
  }

  lemma SettledNotes(first: seq<Reply>, ids: seq<u32>)
    ensures Notes(first + Reports(ids) + [Prompt]) == Notes(first)
  {
    ReportsAreNoNotes(ids);
    NotesJoin(first, Reports(ids));
    NotesJoin(first + Reports(ids), [Prompt]);
    OneNote(Prompt);
    hide Notes;
  }

  lemma RetargetNotes(target: Hash)
    ensures Notes([]) == [] && Notes([Prompt]) == [] && Notes([Retarget(target), Prompt]) == [Retarget(target)]
  {
    OneNote(Prompt);
    OneNote(Retarget(target));
    NotesJoin([Retarget(target)], [Prompt]);
    assert [Retarget(target), Prompt] == [Retarget(target)] + [Prompt];
  }

  lemma CodeIs(reason: Bytes)
    ensures Code(reason) == if A.StaleReason(reason) then 21 else 20
  {
    A.CodeOfReason(reason);
    hide A.StaleReason;
  }

  lemma NotesOfInput(s: State, i: Input)
    requires React(s, i).Some?
    ensures Notes(React(s, i).value.replies) == NoteOf(i)
  {
    hide StandardWork, CompactTarget, ShareTarget, DecimalText, Notes, L.Acknowledge, L.Refuse, Code, A.StaleReason;
    RetargetNotes(s.target);
    match i {
      case Received(Accepted(_, last, count, _)) =>
        var ids := L.Acknowledge(s.ledger, L.Batch(last, count)).value.accepted;
        SettledNotes([], ids);
        assert [] + Reports(ids) + [Prompt] == Reports(ids) + [Prompt];
      case Received(Rejected(_, sequence, reason)) =>
        CodeIs(reason);
        var refusal := ShareRefused(sequence, Code(reason), reason);
        SettledNotes([refusal], L.Refuse(s.ledger, sequence).value.accepted);
        OneNote(refusal);
      case Received(Target(_, target)) => RetargetNotes(target);
      case _ =>
    }
  }

  /** Over every run the refusals and targets reported are those the pool sent, with their reasons, in order. */
  lemma {:induction false} NotesAreMessages(user: Bytes, rate: u32, inputs: seq<Input>)
    requires Run(Start(user, rate), inputs).Some?
    ensures Notes(Run(Start(user, rate), inputs).value.replies) == NotesOf(inputs)
  {
    if inputs == [] {
      RetargetNotes(Zeros(32));
    } else {
      hide React, Notes, NoteOf;
      var a, i := inputs[..|inputs| - 1], inputs[|inputs| - 1];
      NotesAreMessages(user, rate, a);
      var t := Run(Start(user, rate), a).value;
      NotesOfInput(t.state, i);
      NotesJoin(t.replies, React(t.state, i).value.replies);
    }
  }
}
