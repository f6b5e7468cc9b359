/** The confluence of batched acknowledgements, stated for whole session runs. */
module SessionConfluence {
  import opened Sv2
  import opened Base
  import B = BatchConfluence

  /**
    Two runs of the session that deliver the same decisions about the same shares, in any two orders and
    mixed with any other messages, end with the same books and report the same acceptances in the same order.
   */
  lemma SessionsAgree(p: B.Plan, user: Bytes, rate: u32, a: seq<Input>, b: seq<Input>)
    requires Run(Start(user, rate), a).Some? && Run(Start(user, rate), b).Some?
    requires B.WellFormed(p) && B.Interleaving(p, ShareEvents(a)) && B.Interleaving(p, ShareEvents(b))
    ensures var t := Run(Start(user, rate), a).value; var u := Run(Start(user, rate), b).value;
            t.state.ledger == u.state.ledger && AcceptedIds(t.replies) == AcceptedIds(u.replies)
  {
    hide *;
    SessionRunsLedger(user, rate, a);
    SessionRunsLedger(user, rate, b);
    B.Confluence(p, ShareEvents(a));
    B.Confluence(p, ShareEvents(b));
    B.OrderIrrelevant(p, ShareEvents(a), ShareEvents(b));
  }

  /** Such a run can only have ended well if every acknowledged batch end was still outstanding. */
  lemma SurvivorsEndOutstanding(p: B.Plan, user: Bytes, rate: u32, a: seq<Input>)
    requires Run(Start(user, rate), a).Some? && B.WellFormed(p) && B.Interleaving(p, ShareEvents(a))
    ensures B.EndsOutstanding(ShareEvents(a))
    ensures var t := Run(Start(user, rate), a).value; var f := B.Final(p, t.state.ledger.lastSent);
            f.ledger == t.state.ledger && f.accepted == AcceptedIds(t.replies)
  {
    hide *;
    SessionRunsLedger(user, rate, a);
    B.Confluence(p, ShareEvents(a));
  }
}
