/**
 * The pairing loop (`create_user`) run sequentially. Each round asks every
 * bridge once; the order in which those attempts finish is an input, one
 * completion per bridge per round. Successes go into a channel of capacity
 * four, and after the round is drained the first message in it is saved.
 * `save` is recorded, not performed: the run's result lists every user
 * handed to it, and `saveResult` is what the store answers. Sleeping between
 * rounds is counted, not timed.
 *
 * `tokio::sync::mpsc` is modelled at the two points where it decides the
 * behaviour: a `send` into a full channel waits until a receiver makes room,
 * and `recv` on an empty channel waits while a sender is still alive. In the
 * loop as written the sender `tx` is alive when `rx.recv()` runs, so a round
 * without a success waits for ever; such a run ends as `Hung`.
 * `CreateUserDroppingSender` is the loop with `tx` dropped before `recv`.
 */
module Polling {
  import opened Wrappers
  import opened Discovery
  import opened Pairing

  /** `for _ in 1..25`: at most this many rounds. */
  const MaxRounds: nat := 24
  /** `mpsc::channel(4)`. */
  const ChannelCapacity: nat := 4
  /** The pause after a round without a credential, in seconds. */
  const RetryDelaySeconds: nat := 5

  /** One finished attempt: which bridge (an index into the list) and what its exchange gave back. */
  datatype Completion = Completion(bridge: nat, reply: Reply)

  predicate InRange(bridges: seq<Bridge>, round: seq<Completion>)
  {
    forall k :: 0 <= k < |round| ==> round[k].bridge < |bridges|
  }

  /** Every bridge finishes exactly once per round, in some order. */
  predicate IsCompletionOrder(bridges: seq<Bridge>, round: seq<Completion>)
  {
    && |round| == |bridges|
    && InRange(bridges, round)
    && forall k, l :: 0 <= k < l < |round| ==> round[k].bridge != round[l].bridge
  }

  /** A completion order for each of the rounds the loop may run. */
  predicate WellFormed(bridges: seq<Bridge>, rounds: seq<seq<Completion>>)
  {
    && |rounds| == MaxRounds
    && forall i :: 0 <= i < |rounds| ==> IsCompletionOrder(bridges, rounds[i])
  }

  /** The attempt outcomes of a round, in completion order. */
  function Outcomes(bridges: seq<Bridge>, round: seq<Completion>): (outcomes: seq<AttemptOutcome>)
    requires InRange(bridges, round)
    ensures |outcomes| == |round|
  {
    seq(|round|, k requires 0 <= k < |round| =>
      Authorize(bridges[round[k].bridge].internalipaddress, round[k].reply))
  }

  /** The users in the successful outcomes, in order; every other outcome is dropped. */
  function Successes(outcomes: seq<AttemptOutcome>): (users: seq<User>)
    ensures |users| <= |outcomes|
    ensures forall u :: u in users <==> Success(u) in outcomes
  {
    if outcomes == [] then []
    else
      var rest := Successes(outcomes[1..]);
      assert forall o :: o in outcomes <==> o == outcomes[0] || o in outcomes[1..];
      (if outcomes[0].Success? then [outcomes[0].user] else []) + rest
  }

  lemma {:induction false} SuccessesAppend(a: seq<AttemptOutcome>, b: seq<AttemptOutcome>)
    ensures Successes(a + b) == Successes(a) + Successes(b)
  {
    if a != [] {
      assert (a + b)[1..] == a[1..] + b;
      SuccessesAppend(a[1..], b);
    } else {
      assert a + b == b;
    }
  }

  /** The first user collected is the first success in completion order. */
  lemma {:induction false} FirstSuccess(outcomes: seq<AttemptOutcome>)
    requires Successes(outcomes) != []
    ensures exists k :: 0 <= k < |outcomes| && outcomes[k] == Success(Successes(outcomes)[0]) &&
                        forall j :: 0 <= j < k ==> !outcomes[j].Success?
  {
    if !outcomes[0].Success? {
      var rest := outcomes[1..];
      FirstSuccess(rest);
      var k :| 0 <= k < |rest| && rest[k] == Success(Successes(rest)[0]) &&
               forall j :: 0 <= j < k ==> !rest[j].Success?;
      forall j | 0 <= j < k + 1 ensures !outcomes[j].Success? {
        if j > 0 { assert outcomes[j] == rest[j - 1]; }
      }
      assert outcomes[k + 1] == rest[k];
    }
  }

  /** How a round ends once its attempts are drained and `recv` is called. */
  datatype RoundEnd = Found(user: User) | NothingReceived | Blocked

  /**
   * The end of a round that produced `successes`, in completion order:
   * a fifth success cannot be sent; otherwise `recv` yields the first one;
   * with none, `recv` waits while the sender is open and reports `None`
   * once it is closed.
   */
  function EndOfRound(successes: seq<User>, senderOpen: bool): (end: RoundEnd)
    ensures end.Found? <==> 0 < |successes| <= ChannelCapacity
    ensures end.Found? ==> end.user == successes[0]
    ensures end.NothingReceived? <==> successes == [] && !senderOpen
    ensures end.Blocked? <==> |successes| > ChannelCapacity || (successes == [] && senderOpen)
  {
    if |successes| > ChannelCapacity then Blocked
    else if successes != [] then Found(successes[0])
    else if senderOpen then Blocked
    else NothingReceived
  }

  /** The successes of round `i` (counted from zero), in completion order: at most one per bridge. */
  function SuccessesAt(bridges: seq<Bridge>, rounds: seq<seq<Completion>>, i: nat): (users: seq<User>)
    requires WellFormed(bridges, rounds) && i < MaxRounds
    ensures |users| <= |bridges|
  {
    Successes(Outcomes(bridges, rounds[i]))
  }

  /** Drains one round's attempts into the channel, then receives from it. */
  method PollRound(bridges: seq<Bridge>, round: seq<Completion>, senderOpen: bool) returns (end: RoundEnd)
    requires InRange(bridges, round)
    ensures end == EndOfRound(Successes(Outcomes(bridges, round)), senderOpen)
  {
    ghost var outcomes := Outcomes(bridges, round);
    var channel: seq<User> := [];
    for k := 0 to |round|
      invariant channel == Successes(outcomes[..k])
      invariant |channel| <= ChannelCapacity
    {
      var outcome := Authorize(bridges[round[k].bridge].internalipaddress, round[k].reply);
      assert outcome == outcomes[k];
      assert outcomes[..k + 1] == outcomes[..k] + [outcome];
      SuccessesAppend(outcomes[..k], [outcome]);
      if outcome.Success? {
        if |channel| == ChannelCapacity {
          // `tx.send(b).await` waits for room; nothing receives before the drain ends
          assert outcomes == outcomes[..k + 1] + outcomes[k + 1..];
          SuccessesAppend(outcomes[..k + 1], outcomes[k + 1..]);
          return Blocked;
        }
        channel := channel + [outcome.user];
      }
      // a rejected or panicked attempt is only printed
    }
    assert outcomes[..|round|] == outcomes;
    if channel != [] {
      end := Found(channel[0]);
    } else if senderOpen {
      end := Blocked;
    } else {
      end := NothingReceived;
    }
  }

  /** How a run of the loop ends: it returns, after `roundsRun` rounds and `sleeps` pauses, or waits for ever in round `round`. */
  datatype RunEnd =
    | Returned(result: Result<(), string>, saved: seq<User>, roundsRun: nat, sleeps: nat)
    | Hung(round: nat)

  /** How each of the budgeted rounds ends, given its completions and whether the sender is open at `recv`. */
  function RoundEnds(bridges: seq<Bridge>, rounds: seq<seq<Completion>>, senderOpen: bool): (ends: seq<RoundEnd>)
    requires WellFormed(bridges, rounds)
    ensures |ends| == MaxRounds
  {
    seq(MaxRounds, j requires 0 <= j < MaxRounds => EndOfRound(SuccessesAt(bridges, rounds, j), senderOpen))
  }

  /** The loop from round `i` (counted from zero) on, given how every round ends. */
  function RunFrom(ends: seq<RoundEnd>, saveResult: Result<(), string>, i: nat): (e: RunEnd)
    requires |ends| == MaxRounds && i <= MaxRounds
    decreases MaxRounds - i
    ensures e.Hung? ==> i < e.round <= MaxRounds
    ensures e.Returned? ==> |e.saved| <= 1 && e.sleeps <= e.roundsRun <= MaxRounds
    ensures e.Returned? && i < MaxRounds ==> i < e.roundsRun
  {
    if i == MaxRounds then Returned(Ok(()), [], MaxRounds, MaxRounds)
    else match ends[i]
      case Blocked => Hung(i + 1)
      case Found(user) => Returned(saveResult, [user], i + 1, i)
      case NothingReceived => RunFrom(ends, saveResult, i + 1)
  }

  /**
   * The whole loop. It runs at least one round and at most the budget,
   * saves at most once, and pauses at most once per round, so for at most
   * two minutes in all.
   */
  function Run(bridges: seq<Bridge>, rounds: seq<seq<Completion>>, saveResult: Result<(), string>,
               senderOpen: bool): (e: RunEnd)
    requires WellFormed(bridges, rounds)
    ensures e.Hung? ==> 1 <= e.round <= MaxRounds
    ensures e.Returned? ==> |e.saved| <= 1 && 1 <= e.roundsRun <= MaxRounds && e.sleeps <= e.roundsRun
    ensures e.Returned? ==> e.sleeps * RetryDelaySeconds <= 120
  {
    RunFrom(RoundEnds(bridges, rounds, senderOpen), saveResult, 0)
  }

  /** The loop body shared by both readings; `senderOpen` says whether `tx` is alive at `rx.recv()`. */
  method PairingLoop(bridges: seq<Bridge>, rounds: seq<seq<Completion>>, saveResult: Result<(), string>, senderOpen: bool)
    returns (end: RunEnd)
    requires WellFormed(bridges, rounds)
    ensures end == Run(bridges, rounds, saveResult, senderOpen)
  {
    ghost var ends := RoundEnds(bridges, rounds, senderOpen);
    var saved: seq<User> := [];
    var roundsRun, sleeps := 0, 0;
    for i := 0 to MaxRounds
      invariant saved == [] && roundsRun == i && sleeps == i
      invariant Run(bridges, rounds, saveResult, senderOpen) == RunFrom(ends, saveResult, i)
    {
      roundsRun := roundsRun + 1;
      var received := PollRound(bridges, rounds[i], senderOpen);
      assert received == ends[i];
      if received.Blocked? {
        return Hung(roundsRun);
      }
      if received.Found? {
        saved := saved + [received.user];
        // `save` is called with the credential; its answer is returned as is
        return Returned(saveResult, saved, roundsRun, sleeps);
      }
      sleeps := sleeps + 1;
    }
    end := Returned(Ok(()), saved, roundsRun, sleeps);
  }

  /** `create_user` as written: the sender is still open when the round's channel is read. */
  method CreateUser(bridges: seq<Bridge>, rounds: seq<seq<Completion>>, saveResult: Result<(), string>)
    returns (end: RunEnd)
    requires WellFormed(bridges, rounds)
    ensures end == Run(bridges, rounds, saveResult, true)
  {
    end := PairingLoop(bridges, rounds, saveResult, true);
  }

  /** `create_user` with `tx` dropped before `rx.recv()`, so a round without a credential is retried. */
  method CreateUserDroppingSender(bridges: seq<Bridge>, rounds: seq<seq<Completion>>, saveResult: Result<(), string>)
    returns (end: RunEnd)
    requires WellFormed(bridges, rounds)
    ensures end == Run(bridges, rounds, saveResult, false)
  {
    end := PairingLoop(bridges, rounds, saveResult, false);
  }

  /** A run waits for ever only in a round that blocked, after rounds that all came back empty. */
  lemma {:induction false} RunFromHung(ends: seq<RoundEnd>, saveResult: Result<(), string>, i: nat)
    requires |ends| == MaxRounds && i <= MaxRounds
    requires RunFrom(ends, saveResult, i).Hung?
    decreases MaxRounds - i
    ensures var r := RunFrom(ends, saveResult, i).round;
      && i < r <= MaxRounds
      && ends[r - 1] == Blocked
      && forall j :: i <= j < r - 1 ==> ends[j] == NothingReceived
  {
    if ends[i] == NothingReceived {
      RunFromHung(ends, saveResult, i + 1);
    }
  }

  /**
   * A run that saves saves once, the user the deciding round found, and
   * returns the store's answer at once, without sleeping after that round;
   * every round before it came back empty.
   */
  lemma {:induction false} RunFromSaved(ends: seq<RoundEnd>, saveResult: Result<(), string>, i: nat)
    requires |ends| == MaxRounds && i <= MaxRounds
    requires RunFrom(ends, saveResult, i).Returned?
    requires RunFrom(ends, saveResult, i).saved != []
    decreases MaxRounds - i
    ensures var e := RunFrom(ends, saveResult, i);
      && |e.saved| == 1
      && e.result == saveResult
      && i < e.roundsRun <= MaxRounds
      && e.sleeps == e.roundsRun - 1
      && ends[e.roundsRun - 1] == Found(e.saved[0])
      && forall j :: i <= j < e.roundsRun - 1 ==> ends[j] == NothingReceived
  {
    if ends[i] == NothingReceived {
      RunFromSaved(ends, saveResult, i + 1);
    }
  }

  /** A run that returns without saving used the whole budget, every round empty, and reports success. */
  lemma {:induction false} RunFromUnsaved(ends: seq<RoundEnd>, saveResult: Result<(), string>, i: nat)
    requires |ends| == MaxRounds && i <= MaxRounds
    requires RunFrom(ends, saveResult, i).Returned?
    requires RunFrom(ends, saveResult, i).saved == []
    decreases MaxRounds - i
    ensures var e := RunFrom(ends, saveResult, i);
      && e.result == Ok(())
      && e.roundsRun == e.sleeps == MaxRounds
      && forall j :: i <= j < MaxRounds ==> ends[j] == NothingReceived
  {
    if i < MaxRounds {
      RunFromUnsaved(ends, saveResult, i + 1);
    }
  }

  /** The run's error, if any, is the store's: attempt failures never surface. */
  lemma ErrorOnlyFromSave(bridges: seq<Bridge>, rounds: seq<seq<Completion>>, saveResult: Result<(), string>, senderOpen: bool)
    requires WellFormed(bridges, rounds)
    ensures Run(bridges, rounds, saveResult, senderOpen).Returned? && Run(bridges, rounds, saveResult, senderOpen).saved != [] ==>
              Run(bridges, rounds, saveResult, senderOpen).result == saveResult
    ensures Run(bridges, rounds, saveResult, senderOpen).Returned? && Run(bridges, rounds, saveResult, senderOpen).saved == [] ==>
              Run(bridges, rounds, saveResult, senderOpen).result == Ok(())
  {
    var e := Run(bridges, rounds, saveResult, senderOpen);
    var ends := RoundEnds(bridges, rounds, senderOpen);
    if e.Returned? && e.saved != [] {
      RunFromSaved(ends, saveResult, 0);
    } else if e.Returned? {
      RunFromUnsaved(ends, saveResult, 0);
    }
  }

  /**
   * The saved user is the first success, in completion order, of the round
   * that saved, that round had at most four successes, and every earlier
   * round had none. The later successes of that round are not saved.
   */
  lemma SavedIsFirstSuccess(bridges: seq<Bridge>, rounds: seq<seq<Completion>>, saveResult: Result<(), string>, senderOpen: bool)
    requires WellFormed(bridges, rounds)
    requires Run(bridges, rounds, saveResult, senderOpen).Returned?
    requires Run(bridges, rounds, saveResult, senderOpen).saved != []
    ensures var e := Run(bridges, rounds, saveResult, senderOpen);
      && 1 <= e.roundsRun <= MaxRounds
      && var os := Outcomes(bridges, rounds[e.roundsRun - 1]);
      && |e.saved| == 1
      && 0 < |Successes(os)| <= ChannelCapacity
      && (exists k :: 0 <= k < |os| && os[k] == Success(e.saved[0]) && forall j :: 0 <= j < k ==> !os[j].Success?)
      && forall j :: 0 <= j < e.roundsRun - 1 ==> SuccessesAt(bridges, rounds, j) == []
  {
    var e := Run(bridges, rounds, saveResult, senderOpen);
    var ends := RoundEnds(bridges, rounds, senderOpen);
    RunFromSaved(ends, saveResult, 0);
    var os := Outcomes(bridges, rounds[e.roundsRun - 1]);
    assert EndOfRound(Successes(os), senderOpen) == ends[e.roundsRun - 1] == Found(e.saved[0]);
    FirstSuccess(os);
    forall j | 0 <= j < e.roundsRun - 1 ensures SuccessesAt(bridges, rounds, j) == [] {
      assert EndOfRound(SuccessesAt(bridges, rounds, j), senderOpen) == ends[j] == NothingReceived;
    }
  }

  /** Every credential a round produces names the bridge that produced it. */
  lemma SuccessIsFromABridge(bridges: seq<Bridge>, round: seq<Completion>, u: User)
    requires InRange(bridges, round)
    requires u in Successes(Outcomes(bridges, round))
    ensures exists b :: b in bridges && b.internalipaddress == u.bridgeAddress
  {
    var os := Outcomes(bridges, round);
    var k :| 0 <= k < |os| && os[k] == Success(u);
    var b := bridges[round[k].bridge];
    assert b in bridges && b.internalipaddress == u.bridgeAddress;
  }

  /** The saved credential names one of the discovered bridges. */
  lemma SavedUserIsFromABridge(bridges: seq<Bridge>, rounds: seq<seq<Completion>>, saveResult: Result<(), string>, senderOpen: bool)
    requires WellFormed(bridges, rounds)
    requires Run(bridges, rounds, saveResult, senderOpen).Returned?
    requires Run(bridges, rounds, saveResult, senderOpen).saved != []
    ensures exists b :: b in bridges && b.internalipaddress == Run(bridges, rounds, saveResult, senderOpen).saved[0].bridgeAddress
  {
    var e := Run(bridges, rounds, saveResult, senderOpen);
    var ends := RoundEnds(bridges, rounds, senderOpen);
    RunFromSaved(ends, saveResult, 0);
    var t := e.roundsRun - 1;
    var successes := SuccessesAt(bridges, rounds, t);
    assert EndOfRound(successes, senderOpen) == ends[t] == Found(e.saved[0]);
    assert e.saved[0] == successes[0] && e.saved[0] in successes;
    SuccessIsFromABridge(bridges, rounds[t], e.saved[0]);
  }

  /**
   * As written, the loop never reaches a second round: the first round
   * either saves its first success or, with no success or more than four,
   * waits for ever.
   */
  lemma AsWrittenNeverRetries(bridges: seq<Bridge>, rounds: seq<seq<Completion>>, saveResult: Result<(), string>)
    requires WellFormed(bridges, rounds)
    ensures var e := Run(bridges, rounds, saveResult, true);
      var first := SuccessesAt(bridges, rounds, 0);
      && (e == Hung(1) <==> first == [] || |first| > ChannelCapacity)
      && (e != Hung(1) ==> e == Returned(saveResult, [first[0]], 1, 0))
  {
  }

  /** With the sender dropped, a run where no round has a success uses the whole budget and returns `Ok(())`. */
  lemma {:induction false} DroppingSenderExhaustsBudget(bridges: seq<Bridge>, rounds: seq<seq<Completion>>,
                                                         saveResult: Result<(), string>, i: nat)
    requires WellFormed(bridges, rounds) && i <= MaxRounds
    requires forall j :: i <= j < MaxRounds ==> SuccessesAt(bridges, rounds, j) == []
    decreases MaxRounds - i
    ensures RunFrom(RoundEnds(bridges, rounds, false), saveResult, i) == Returned(Ok(()), [], MaxRounds, MaxRounds)
  {
    if i < MaxRounds {
      assert RoundEnds(bridges, rounds, false)[i] == EndOfRound(SuccessesAt(bridges, rounds, i), false) == NothingReceived;
      DroppingSenderExhaustsBudget(bridges, rounds, saveResult, i + 1);
    }
  }

  /**
   * With the sender dropped, rounds without a success are retried, and the
   * first round with one to four successes saves its first one.
   */
  lemma {:induction false} DroppingSenderSavesFirstSuccessfulRound(bridges: seq<Bridge>, rounds: seq<seq<Completion>>,
                                                                    saveResult: Result<(), string>, i: nat, t: nat)
    requires WellFormed(bridges, rounds) && i <= t < MaxRounds
    requires forall j :: i <= j < t ==> SuccessesAt(bridges, rounds, j) == []
    requires 0 < |SuccessesAt(bridges, rounds, t)| <= ChannelCapacity
    decreases t - i
    ensures RunFrom(RoundEnds(bridges, rounds, false), saveResult, i)
            == Returned(saveResult, [SuccessesAt(bridges, rounds, t)[0]], t + 1, t)
  {
    assert RoundEnds(bridges, rounds, false)[t] == EndOfRound(SuccessesAt(bridges, rounds, t), false);
    if i < t {
      assert RoundEnds(bridges, rounds, false)[i] == EndOfRound(SuccessesAt(bridges, rounds, i), false) == NothingReceived;
      DroppingSenderSavesFirstSuccessfulRound(bridges, rounds, saveResult, i + 1, t);
    }
  }
}
