/**
 * The three-way confirmation both batch operations run (`moveFilesWithPrompt` and the
 * `renameFileWithPrompt` calls of `renameMediaFilesWithPrompt`): for every planned
 * operation the user answers "do it", "don't" or "do it and all the rest"; after the
 * third answer nothing more is asked. An answer that is none of the three throws and
 * ends the batch. The effects are recorded in order; the prompts read a sequence of
 * answers.
 */
module Gate {
  import opened Results
  import opened Paths
  import opened Sequences

  /** The three choices of a prompt, in the order the `switch` tests them. */
  datatype Choices = Choices(apply: string, skip: string, applyAll: string)

  const RenameChoices := Choices("Rename", "Don't rename", "Rename all (auto)")
  const MoveChoices := Choices("Move", "Don't move", "Move all (auto)")

  /** What an answer asks for. */
  datatype Decision = Apply | Skip | ApplyAll

  /** The `switch` over an answer: the first choice it equals, or nothing (`throw 'Unhandled input'`). */
  function Decide(ch: Choices, answer: string): Option<Decision> {
    if answer == ch.apply then Some(Apply)
    else if answer == ch.skip then Some(Skip)
    else if answer == ch.applyAll then Some(ApplyAll)
    else None
  }

  /** A planned rename or move. */
  datatype Op = Op(from: Path, to: Path)

  /** Why a batch stops: an answer outside the choices, or no answer left to read. */
  datatype GateError = UnhandledInput(answer: string) | NoAnswer

  /**
   * The state the loop threads through the batch: the `auto` flag, the operations carried
   * out so far, the number of prompts shown, the answers not yet read, and the error that
   * ended the batch, if any.
   */
  datatype GateState = GateState(auto: bool, done: seq<Op>, asked: nat, pending: seq<string>, failure: Option<GateError>)

  function Start(auto: bool, answers: seq<string>): GateState {
    GateState(auto, [], 0, answers, None)
  }

  /** One operation offered to the gate: carried out when `auto` is set, otherwise asked about. */
  function Offer(ch: Choices, s: GateState, op: Op): GateState
    requires s.failure.None?
  {
    if s.auto then s.(done := s.done + [op])
    else if s.pending == [] then s.(failure := Some(NoAnswer))
    else
      var answer := s.pending[0];
      var t := s.(asked := s.asked + 1, pending := s.pending[1..]);
      match Decide(ch, answer)
      case Some(Apply) => t.(done := s.done + [op])
      case Some(Skip) => t
      case Some(ApplyAll) => t.(auto := true, done := s.done + [op])
      case None => t.(failure := Some(UnhandledInput(answer)))
  }

  /** The batch: the operations offered in order until one of them fails. */
  function Run(ch: Choices, s: GateState, ops: seq<Op>): GateState
    decreases |ops|
  {
    if ops == [] || s.failure.Some? then s else Run(ch, Offer(ch, s, ops[0]), ops[1..])
  }

  /** The loop over a batch, with `auto` starting as given. */
  method RunBatch(ch: Choices, ops: seq<Op>, auto: bool, answers: seq<string>) returns (s: GateState)
    ensures s == Run(ch, Start(auto, answers), ops)
  {
    s := Start(auto, answers);
    var i := 0;
    while i < |ops| && s.failure.None?
      invariant 0 <= i <= |ops|
      invariant Run(ch, Start(auto, answers), ops) == Run(ch, s, ops[i..])
    {
      assert ops[i..][1..] == ops[i + 1..];
      s := Ask(ch, s, ops[i]);
      i := i + 1;
    }
  }

  /** One turn of the loop. */
  method Ask(ch: Choices, s: GateState, op: Op) returns (t: GateState)
    requires s.failure.None?
    ensures t == Offer(ch, s, op)
  {
    if s.auto {
      t := s.(done := s.done + [op]);
      return;
    }
    if s.pending == [] {
      t := s.(failure := Some(NoAnswer));
      return;
    }
    var answer := s.pending[0];
    t := s.(asked := s.asked + 1, pending := s.pending[1..]);
    var d := Decide(ch, answer);
    match d {
      case Some(Apply) =>
        t := t.(done := s.done + [op]);
      case Some(Skip) =>
      case Some(ApplyAll) =>
        t := t.(auto := true, done := s.done + [op]);
      case None =>
        t := t.(failure := Some(UnhandledInput(answer)));
    }
  }

  // ---------------------------------------------------------------------------
  // Properties.
  // ---------------------------------------------------------------------------

  /** The three labels of each prompt are different, so each answer picks one case. */
  lemma ChoicesAreDistinct()
    ensures Decide(RenameChoices, "Rename") == Some(Apply)
    ensures Decide(RenameChoices, "Don't rename") == Some(Skip)
    ensures Decide(RenameChoices, "Rename all (auto)") == Some(ApplyAll)
    ensures Decide(MoveChoices, "Move") == Some(Apply)
    ensures Decide(MoveChoices, "Don't move") == Some(Skip)
    ensures Decide(MoveChoices, "Move all (auto)") == Some(ApplyAll)
  {
    assert "Rename all (auto)" != "Rename" by { assert |"Rename all (auto)"| != |"Rename"|; }
    assert "Rename all (auto)" != "Don't rename" by { assert "Rename all (auto)"[0] != "Don't rename"[0]; }
    assert "Don't rename" != "Rename" by { assert "Don't rename"[0] != "Rename"[0]; }
    assert "Move all (auto)" != "Move" by { assert |"Move all (auto)"| != |"Move"|; }
    assert "Move all (auto)" != "Don't move" by { assert "Move all (auto)"[0] != "Don't move"[0]; }
    assert "Don't move" != "Move" by { assert "Don't move"[0] != "Move"[0]; }
  }

  /**
   * A batch only adds to what was done, and what it adds is the offered operations with
   * some left out, in their order.
   */
  lemma {:induction false} RunDoesSubsequence(ch: Choices, s: GateState, ops: seq<Op>)
    ensures var r := Run(ch, s, ops);
      s.done <= r.done && IsSubsequence(r.done[|s.done|..], ops)
    decreases |ops|
  {
    var r := Run(ch, s, ops);
    if ops == [] || s.failure.Some? {
      assert r.done[|s.done|..] == [];
    } else {
      var t := Offer(ch, s, ops[0]);
      RunDoesSubsequence(ch, t, ops[1..]);
      if t.done == s.done {
        SubsequenceOfTail(r.done[|s.done|..], ops);
      } else {
        assert t.done == s.done + [ops[0]];
        assert r.done[|s.done|..] == [ops[0]] + r.done[|t.done|..];
      }
    }
  }

  /**
   * Every prompt of a batch reads one answer, from the front of those left; a batch that
   * has failed stays failed.
   */
  lemma {:induction false} RunReadsAnswersInOrder(ch: Choices, s: GateState, ops: seq<Op>)
    ensures var r := Run(ch, s, ops);
      && s.asked <= r.asked <= s.asked + |s.pending|
      && r.pending == s.pending[r.asked - s.asked..]
      && (s.failure.Some? ==> r == s)
    decreases |ops|
  {
    var r := Run(ch, s, ops);
    if ops == [] || s.failure.Some? {
      assert s.pending[0..] == s.pending;
    } else {
      var t := Offer(ch, s, ops[0]);
      RunReadsAnswersInOrder(ch, t, ops[1..]);
      OfferReadsOne(ch, s, ops[0]);
      if t.asked != s.asked {
        assert s.pending[1..][r.asked - t.asked..] == s.pending[r.asked - s.asked..];
      }
    }
  }

  /** A prompt reads the first answer left; carrying out under `auto` or failing reads none. */
  lemma OfferReadsOne(ch: Choices, s: GateState, op: Op)
    requires s.failure.None?
    ensures var t := Offer(ch, s, op);
      if !s.auto && s.pending != [] then t.asked == s.asked + 1 && t.pending == s.pending[1..]
      else t.asked == s.asked && t.pending == s.pending
  {
  }

  /** Once `auto` is set, every remaining operation is carried out and nothing is asked. */
  lemma {:induction false} AutoAppliesAll(ch: Choices, s: GateState, ops: seq<Op>)
    requires s.auto && s.failure.None?
    ensures Run(ch, s, ops) == s.(done := s.done + ops)
    decreases |ops|
  {
    if ops == [] {
      assert s.done + ops == s.done;
    } else {
      var t := Offer(ch, s, ops[0]);
      AutoAppliesAll(ch, t, ops[1..]);
      assert s.done + [ops[0]] + ops[1..] == s.done + ops;
    }
  }

  /**
   * Answering "all" at the first prompt carries out every operation of the batch, and no
   * later prompt is shown: exactly one answer is read.
   */
  lemma ApplyAllEndsPrompts(ch: Choices, s: GateState, ops: seq<Op>)
    requires !s.auto && s.failure.None? && ops != [] && s.pending != []
    requires Decide(ch, s.pending[0]) == Some(ApplyAll)
    ensures Run(ch, s, ops) == s.(auto := true, done := s.done + ops, asked := s.asked + 1, pending := s.pending[1..])
  {
    var t := Offer(ch, s, ops[0]);
    AutoAppliesAll(ch, t, ops[1..]);
    assert s.done + [ops[0]] + ops[1..] == s.done + ops;
  }

  /** An answer outside the choices ends the batch with that answer as the error, before the operation is carried out. */
  lemma UnhandledAnswerThrows(ch: Choices, s: GateState, ops: seq<Op>)
    requires !s.auto && s.failure.None? && ops != [] && s.pending != []
    requires Decide(ch, s.pending[0]) == None
    ensures Run(ch, s, ops) == s.(asked := s.asked + 1, pending := s.pending[1..], failure := Some(UnhandledInput(s.pending[0])))
  {
    assert Run(ch, s, ops) == Run(ch, Offer(ch, s, ops[0]), ops[1..]);
  }

  /** Without `auto`, an operation is carried out exactly when its own answer asks for it. */
  lemma AnswerDecidesOne(ch: Choices, s: GateState, op: Op)
    requires !s.auto && s.failure.None? && s.pending != []
    ensures Offer(ch, s, op).done == s.done + [op] <==> Decide(ch, s.pending[0]) in {Some(Apply), Some(ApplyAll)}
    ensures Offer(ch, s, op).done == s.done <==> Decide(ch, s.pending[0]) !in {Some(Apply), Some(ApplyAll)}
  {
    assert s.done + [op] != s.done by { assert |s.done + [op]| != |s.done|; }
  }

  /** Answering "don't" to every prompt carries out nothing and reads one answer per operation. */
  lemma {:induction false} SkipAllDoesNothing(ch: Choices, s: GateState, ops: seq<Op>)
    requires !s.auto && s.failure.None? && |ops| <= |s.pending|
    requires forall k :: 0 <= k < |ops| ==> Decide(ch, s.pending[k]) == Some(Skip)
    ensures Run(ch, s, ops) == s.(asked := s.asked + |ops|, pending := s.pending[|ops|..])
    decreases |ops|
  {
    if ops != [] {
      var t := Offer(ch, s, ops[0]);
      assert t == s.(asked := s.asked + 1, pending := s.pending[1..]);
      assert forall k :: 0 <= k < |ops[1..]| ==> Decide(ch, t.pending[k]) == Some(Skip) by {
        forall k | 0 <= k < |ops[1..]| ensures Decide(ch, t.pending[k]) == Some(Skip) {
          assert t.pending[k] == s.pending[k + 1];
        }
      }
      SkipAllDoesNothing(ch, t, ops[1..]);
      assert s.pending[1..][|ops| - 1..] == s.pending[|ops|..];
    }
  }
}
