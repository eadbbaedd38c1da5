/**
 When the coordinator heartbeat asks for a SET, said on the answers to its queries alone.
 */
module OutageDetector {
  import opened Prelude
  import opened EventPusher

  /** Query i went unanswered after an earlier one was answered. */
  predicate Counted(answers: seq<Answer>, i: nat) {
    i < |answers| && answers[i] == Unreachable && exists a :: 0 <= a < i && answers[a] != Unreachable
  }

  /**
   Query i asks for a SET: it is answered, and the answer is that the coordinator is not ready, or two
   counted losses have come since the last query that asked.
   */
  predicate Asks(answers: seq<Answer>, i: nat)
    decreases i
  {
    i < |answers| && answers[i] != Unreachable &&
    (answers[i] == NotReady ||
     exists j, k | 0 <= j < k < i :: Counted(answers, j) && Counted(answers, k) && forall m | j < m < i :: !Asks(answers, m))
  }

  /** Two counted losses before query i with no asking query after the first. */
  predicate TwoLost(answers: seq<Answer>, i: nat) {
    exists j, k | 0 <= j < k < i :: Counted(answers, j) && Counted(answers, k) && NoneAsks(answers, j, i)
  }

  predicate OneLost(answers: seq<Answer>, i: nat) {
    exists j | 0 <= j < i :: Counted(answers, j) && NoneAsks(answers, j, i)
  }

  predicate NoneAsks(answers: seq<Answer>, j: nat, i: nat) {
    forall m | j < m < i :: !Asks(answers, m)
  }

  lemma AsksMeans(answers: seq<Answer>, i: nat)
    requires i < |answers|
    ensures Asks(answers, i) <==> answers[i] != Unreachable && (answers[i] == NotReady || TwoLost(answers, i))
  {
    if j, k :| 0 <= j < k < i && Counted(answers, j) && Counted(answers, k) && NoneAsks(answers, j, i) {
      assert forall m | j < m < i :: !Asks(answers, m);
    }
    if j, k :| 0 <= j < k < i && Counted(answers, j) && Counted(answers, k) && forall m | j < m < i :: !Asks(answers, m) {
      assert NoneAsks(answers, j, i);
    }
  }

  /** The flags and the counter after i queries. */
  ghost predicate Tracks(answers: seq<Answer>, i: nat, d: Detector) {
    && (d.connected <==> exists a :: 0 <= a < i <= |answers| && answers[a] != Unreachable)
    && (d.reset <==> TwoLost(answers, i))
    && d.losses <= 1
    && (!d.reset ==> (d.losses == 1 <==> OneLost(answers, i)))
  }

  lemma NothingLostYet(answers: seq<Answer>)
    ensures Tracks(answers, 0, QUIET)
  {
  }

  /** How the losses since the last asking query change with one query. */
  lemma OneMore(answers: seq<Answer>, i: nat)
    requires i < |answers|
    ensures OneLost(answers, i + 1) <==> Counted(answers, i) || (OneLost(answers, i) && !Asks(answers, i))
  {
    if Counted(answers, i) {
      assert NoneAsks(answers, i, i + 1);
    }
    if OneLost(answers, i) && !Asks(answers, i) {
      var j :| 0 <= j < i && Counted(answers, j) && NoneAsks(answers, j, i);
      NoneAsksMore(answers, j, i);
    }
    if j :| 0 <= j < i + 1 && Counted(answers, j) && NoneAsks(answers, j, i + 1) && j < i {
      NoneAsksMore(answers, j, i);
    }
  }

  lemma NoneAsksMore(answers: seq<Answer>, j: nat, i: nat)
    requires j < i
    ensures NoneAsks(answers, j, i + 1) <==> NoneAsks(answers, j, i) && !Asks(answers, i)
  {
  }

  lemma TwoMore(answers: seq<Answer>, i: nat)
    requires i < |answers|
    ensures TwoLost(answers, i + 1) <==> !Asks(answers, i) && (TwoLost(answers, i) || (Counted(answers, i) && OneLost(answers, i)))
  {
    if !Asks(answers, i) && TwoLost(answers, i) {
      var j, k :| 0 <= j < k < i && Counted(answers, j) && Counted(answers, k) && NoneAsks(answers, j, i);
      NoneAsksMore(answers, j, i);
    }
    if Counted(answers, i) && OneLost(answers, i) {
      var j :| 0 <= j < i && Counted(answers, j) && NoneAsks(answers, j, i);
      NoneAsksMore(answers, j, i);
    }
    if j, k :| 0 <= j < k < i + 1 && Counted(answers, j) && Counted(answers, k) && NoneAsks(answers, j, i + 1) {
      NoneAsksMore(answers, j, i);
    }
  }

  /** Two lost implies one lost. */
  lemma TwoIsOne(answers: seq<Answer>, i: nat)
    ensures TwoLost(answers, i) ==> OneLost(answers, i)
  {
  }

  lemma StepTracks(answers: seq<Answer>, i: nat, d: Detector)
    requires i < |answers| && Tracks(answers, i, d)
    ensures Tracks(answers, i + 1, Detect(d, answers[i]).0)
    ensures Detect(d, answers[i]).1 <==> Asks(answers, i)
  {
    AsksMeans(answers, i);
    OneMore(answers, i);
    TwoMore(answers, i);
    TwoIsOne(answers, i);
  }

  lemma DetectAllSnoc(d: Detector, answers: seq<Answer>, i: nat)
    requires i < |answers|
    ensures DetectAll(d, answers[..i + 1]) == Detect(DetectAll(d, answers[..i]), answers[i]).0
    decreases i
  {
    if i == 0 {
      assert answers[..1][1..] == [];
    } else {
      var e := Detect(d, answers[0]).0;
      assert answers[..i + 1][1..] == answers[1..][..i] && answers[..i][1..] == answers[1..][..i - 1];
      DetectAllSnoc(e, answers[1..], i - 1);
    }
  }

  lemma {:induction false} AllTracks(answers: seq<Answer>, i: nat)
    requires i <= |answers|
    ensures Tracks(answers, i, DetectAll(QUIET, answers[..i]))
    decreases i
  {
    if i > 0 {
      AllTracks(answers, i - 1);
      DetectAllSnoc(QUIET, answers, i - 1);
      StepTracks(answers, i - 1, DetectAll(QUIET, answers[..i - 1]));
    }
  }

  /**
   Over every list of answers: a query queues a SET if and only if it is answered, and either the
   coordinator is not ready or two counted losses have come since the last SET.
   */
  lemma QueuesSetIff(answers: seq<Answer>, i: nat)
    requires i < |answers|
    ensures Detect(DetectAll(QUIET, answers[..i]), answers[i]).1 <==> Asks(answers, i)
  {
    AllTracks(answers, i);
    StepTracks(answers, i, DetectAll(QUIET, answers[..i]));
  }
}
