/** Exactly which message sequences an SV1 session survives, told from the messages alone. */
module Sv1Conformance {
  import opened Base
  import opened Coin
  import opened Jobs
  import opened Stratum
  import Difficulty
  import Hex
  import Targets

  /** The identifiers in use: those of the notifies since the last clean one, that one included. */
  function Active(ms: seq<Message>): set<string> {
    if ms == [] then {}
    else
      var m := ms[|ms| - 1];
      if !m.Notify? then Active(ms[..|ms| - 1])
      else (if m.clean then {} else Active(ms[..|ms| - 1])) + {m.id}
  }

  /** The compact target a text denotes: a positive number below 2^256 without the sign bit. */
  predicate NBits(text: string) {
    && Hex.IsHex(text, 4) && Hex.DigitValue(text[2]) < 8
    && Hex.Unhex(text).Success? && |Hex.Unhex(text).value| == 4
    && 0 < Targets.CompactValue(Hex.Unhex(text).value) < Pow256(32)
  }

  /** A message the protocol allows after those before it. */
  predicate Allowed(before: seq<Message>, m: Message) {
    match m
    case SetDifficulty(text) => Difficulty.Parse(text).Success?
    case SetExtranonce(en1, size) => Hex.IsHex(en1, 4) && size == 8
    case Subscribed(en1, size) => Hex.IsHex(en1, 4) && size == 8
    case Notify(id, prev, c1, c2, branches, version, nbits, ntime, clean) =>
      && LastDifficulty(before).Some? && LastExtranonce(before).Some? && branches == 0 && 1 <= |id| <= 256
      && |if clean then {} else Active(before)| < 1024
      && Hex.IsHex(version, 4) && NBits(nbits)
      && Hex.IsHex(prev, 32) && Hex.IsHex(c1, 39) && c2 == "" && Hex.IsHex(ntime, 8)
    case AuthorizeReply(granted) => granted
    case Ignored => true
    case Malformed => false
  }

  /** What the session knows is what the messages say. */
  predicate Knows(s: State, ms: seq<Message>) {
    && (s.haveTarget <==> LastDifficulty(ms).Some?)
    && (s.en2Size == 8 <==> LastExtranonce(ms).Some?) && (s.en2Size == 8 ==> Hex.IsHex(s.en1, 4))
    && s.validIds.Keys == Active(ms)
  }

  lemma SizeIsHex(s: string, n: nat)
    ensures HasSize(s, n) <==> Hex.IsHex(s, n)
  {
    Hex.UnhexSize(s, n);
  }

  lemma Counter(g: nat)
    ensures HasSize(Extranonce2(g), 8)
  {
    Hex.UnhexOfHex(LeBytes(g, 8));
  }

  lemma Nothing(s: string)
    ensures Hex.Unhex(s) == Success([]) <==> s == ""
  {
    Hex.UnhexSize(s, 0);
  }

  lemma HeaderMade(s: State, m: Message)
    requires m.Notify? && HasSize(s.en1, 4)
    ensures SiaWork(m.prev, m.c1, m.c2, s.en1, Extranonce2(s.generation + 1), m.ntime).Success?
            <==> Hex.IsHex(m.prev, 32) && Hex.IsHex(m.c1, 39) && m.c2 == "" && Hex.IsHex(m.ntime, 8)
  {
    Counter(s.generation + 1);
    Nothing(m.c2);
    SizeIsHex(m.prev, 32);
    SizeIsHex(m.c1, 39);
    SizeIsHex(m.ntime, 8);
    hide Hex.Unhex, Hex.IsHex, Extranonce2, SiaHeader;
  }

  lemma SignBit(text: string)
    requires Hex.IsHex(text, 4)
    ensures Hex.Unhex(text).Success? && |Hex.Unhex(text).value| == 4
    ensures Hex.Unhex(text).value[1] < 0x80 <==> Hex.DigitValue(text[2]) < 8
  {
    Hex.UnhexBytes(text, 4, 1);
    Hex.NibbleValue(text[3]);
    hide Hex.DigitValue, Hex.Unhex;
    assert Hex.DigitValue(text[3]) >= 0;
  }

  lemma NetworkMade(text: string)
    ensures HasSize(text, 4) && NetworkTarget(text).Success? <==> NBits(text)
  {
    SizeIsHex(text, 4);
    if Hex.IsHex(text, 4) {
      SignBit(text);
    }
    hide Hex.Unhex, Hex.IsHex, Hex.DigitValue, Targets.CompactValue, Pow256, Targets.BeBytes;
  }

  lemma NotifyMade(s: State, m: Message)
    requires m.Notify?
    ensures OnNotify(s, m).Some? <==>
              && m.branches == 0 && s.haveTarget && s.en2Size == 8 && 1 <= |m.id| <= 256
              && |if m.clean then {} else s.validIds.Keys| < 1024
              && HasSize(m.version, 4) && HasSize(m.nbits, 4) && NetworkTarget(m.nbits).Success?
              && SiaWork(m.prev, m.c1, m.c2, s.en1, Extranonce2(s.generation + 1), m.ntime).Success?
    ensures OnNotify(s, m).Some? ==>
              var t := OnNotify(s, m).value;
              && t.validIds.Keys == (if m.clean then {} else s.validIds.Keys) + {m.id}
              && t.haveTarget == s.haveTarget && t.en2Size == s.en2Size && t.en1 == s.en1
  {
    hide HasSize, SiaWork, NetworkTarget, Extranonce2, JobOf;
    assert |s.validIds| == |s.validIds.Keys|;
  }

  lemma AllowsNotify(s: State, ms: seq<Message>, m: Message)
    requires Knows(s, ms) && m.Notify?
    ensures OnNotify(s, m).Some? <==> Allowed(ms, m)
  {
    hide Hex.IsHex, HasSize, SiaWork, NetworkTarget, Extranonce2, NBits, LastDifficulty, LastExtranonce, Active, OnNotify;
    NotifyMade(s, m);
    SizeIsHex(m.version, 4);
    SizeIsHex(s.en1, 4);
    NetworkMade(m.nbits);
    if HasSize(s.en1, 4) {
      HeaderMade(s, m);
    }
  }

  lemma Allows(s: State, ms: seq<Message>, m: Message)
    requires Knows(s, ms)
    ensures Handle(s, m).Some? <==> Allowed(ms, m)
  {
    match m {
      case Notify(_, _, _, _, _, _, _, _, _) => AllowsNotify(s, ms, m);
      case SetExtranonce(e, _) => SizeIsHex(e, 4);
      case Subscribed(e, _) => SizeIsHex(e, 4);
      case _ => hide Difficulty.Parse;
    }
  }

  lemma Unfolded(ms: seq<Message>, m: Message)
    ensures LastDifficulty(ms + [m]) == if m.SetDifficulty? then Some(m.text) else LastDifficulty(ms)
    ensures LastExtranonce(ms + [m]) == if m.SetExtranonce? || m.Subscribed? then Some(m.en1) else LastExtranonce(ms)
    ensures Active(ms + [m]) == if !m.Notify? then Active(ms) else (if m.clean then {} else Active(ms)) + {m.id}
  {
    assert (ms + [m])[..|ms|] == ms;
  }

  lemma Hears(s: State, ms: seq<Message>, m: Message)
    requires Knows(s, ms) && Handle(s, m).Some?
    ensures Knows(Handle(s, m).value, ms + [m])
  {
    hide Hex.IsHex, HasSize, LastDifficulty, LastExtranonce, Active, Difficulty.DifficultyTarget, OnNotify;
    Unfolded(ms, m);
    if m.Notify? {
      NotifyMade(s, m);
    } else if m.SetExtranonce? || m.Subscribed? {
      SizeIsHex(m.en1, 4);
    }
  }

  lemma {:induction false} KnowsRun(ms: seq<Message>)
    requires Run(ms).Some?
    ensures Knows(Run(ms).value.state, ms)
  {
    if ms != [] {
      hide Knows, Handle;
      var a, m := ms[..|ms| - 1], ms[|ms| - 1];
      assert ms == a + [m];
      KnowsRun(a);
      Hears(Run(a).value.state, a, m);
    }
  }

  predicate Conforms(ms: seq<Message>) {
    ms == [] || (Conforms(ms[..|ms| - 1]) && Allowed(ms[..|ms| - 1], ms[|ms| - 1]))
  }

  /** A session survives a sequence of messages if and only if each of them is allowed by those before it. */
  lemma {:induction false} SessionSurvives(ms: seq<Message>)
    ensures Run(ms).Some? <==> Conforms(ms)
  {
    if ms != [] {
      hide Allowed, Handle, Knows;
      var a, m := ms[..|ms| - 1], ms[|ms| - 1];
      SessionSurvives(a);
      if Run(a).Some? {
        KnowsRun(a);
        Allows(Run(a).value.state, a, m);
      }
    }
  }
}
