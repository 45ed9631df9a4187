/**
 The Lewis signaling game played by urn learning. A Sender sees a state and
 draws a signal from the urn of that state; a Receiver sees the signal and
 draws an act from the urn of that signal. The round succeeds when the act is
 the state. The positive strategy adds a ball to both drawn-from urns on
 success; the positive-negative strategy also takes a ball back from both on
 failure, but never the last copy of a label.

 The two random draws of a round are parameters (`signalDraw`, `actDraw`), so
 a strategy is a function of the learners, the state and the draws.
 */
module Signaling {
  import opened Lists
  import opened Urns

  /** A Sender: one urn per state, holding signals. */
  type Sender<S, G> = UrnLearner<S, G>

  /** A Receiver: one urn per signal, holding states (the acts). */
  type Receiver<S, G> = UrnLearner<G, S>

  /** `Sender.signal`: draw a signal from the urn of `state`. */
  function Signal<S, G>(sender: Sender<S, G>, state: S, draw: nat): (signal: Result<G>)
    ensures signal.Success? <==> state in sender.urns && |sender.urns[state]| > 0
    ensures signal.Success? ==> signal.value in sender.urns[state]
  {
    ChooseBall(sender, state, draw)
  }

  /** `Receiver.act`: draw an act from the urn of `signal`. */
  function Act<S, G>(receiver: Receiver<S, G>, signal: G, draw: nat): (act: Result<S>)
    ensures act.Success? <==> signal in receiver.urns && |receiver.urns[signal]| > 0
    ensures act.Success? ==> act.value in receiver.urns[signal]
  {
    ChooseBall(receiver, signal, draw)
  }

  /** What one round leaves behind: the drawn signal and act and both updated learners. */
  datatype Round<S, G> = Round(signal: G, act: S, sender: Sender<S, G>, receiver: Receiver<S, G>)

  /** The Sender's urn of `state` and the Receiver's urn of `signal`: the two urns a round draws from. */
  ghost predicate DrawnFrom<S, G>(round: Round<S, G>, state: S, sender: Sender<S, G>, receiver: Receiver<S, G>)
  {
    && state in sender.urns
    && round.signal in sender.urns[state]
    && round.signal in receiver.urns
    && round.act in receiver.urns[round.signal]
  }

  /**
   Both draws of a round find a ball: the Sender has a non-empty urn for the
   state, and the signal drawn from it names a non-empty Receiver urn.
   */
  predicate RoundDraws<S, G>(state: S, sender: Sender<S, G>, receiver: Receiver<S, G>, signalDraw: nat)
  {
    && state in sender.urns
    && |sender.urns[state]| > 0
    && var signal := Signal(sender, state, signalDraw).value;
       signal in receiver.urns && |receiver.urns[signal]| > 0
  }

  /**
   The exception the two draws of a round raise, in the order they are made:
   a KeyError for a state without an urn, an IndexError for its empty urn,
   then the same two for the Receiver's urn of the drawn signal.
   */
  function RoundError<S, G>(state: S, sender: Sender<S, G>, receiver: Receiver<S, G>, signalDraw: nat): Error
  {
    if state !in sender.urns then UnknownUrn
    else if |sender.urns[state]| == 0 then EmptyUrn
    else if Signal(sender, state, signalDraw).value !in receiver.urns then UnknownUrn
    else EmptyUrn
  }

  /** Success branch of both strategies: one more ball in each of the two urns drawn from. */
  function Reinforce<S(!new), G(!new)>(state: S, signal: G, sender: Sender<S, G>, receiver: Receiver<S, G>)
    : (r: Result<(Sender<S, G>, Receiver<S, G>)>)
    ensures r.Success? <==> state in sender.urns && signal in receiver.urns
    ensures r.Success? ==> AddedOne(sender, r.value.0, state, signal)
    ensures r.Success? ==> AddedOne(receiver, r.value.1, signal, state)
  {
    var sender' :- PutBall(sender, state, signal);
    var receiver' :- PutBall(receiver, signal, state);
    Success((sender', receiver'))
  }

  /** Failure branch of the positive-negative strategy: `remove_but_one` on each of the two urns. */
  function Punish<S(==,!new), G(==,!new)>(state: S, signal: G, sender: Sender<S, G>, receiver: Receiver<S, G>)
    : (r: Result<(Sender<S, G>, Receiver<S, G>)>)
    ensures r.Success? <==> state in sender.urns && signal in receiver.urns
    ensures r.Success? ==> RemovedButOne(sender, r.value.0, state, signal)
    ensures r.Success? ==> RemovedButOne(receiver, r.value.1, signal, state)
  {
    var sender' :- RemoveButOne(sender, state, signal);
    var receiver' :- RemoveButOne(receiver, signal, state);
    Success((sender', receiver'))
  }

  /**
   `positive_strategy`: the Sender signals, the Receiver acts; when the act is
   the state both learners are reinforced, otherwise neither changes.
   */
  function PositiveStrategy<S(==,!new), G(!new)>(
    state: S, sender: Sender<S, G>, receiver: Receiver<S, G>, signalDraw: nat, actDraw: nat
  ): (r: Result<Round<S, G>>)
    ensures r.Success? <==> RoundDraws(state, sender, receiver, signalDraw)
    ensures r.Failure? ==> r.error == RoundError(state, sender, receiver, signalDraw)
    ensures r.Success? ==> DrawnFrom(r.value, state, sender, receiver)
    ensures r.Success? ==>
      && r.value.signal == Signal(sender, state, signalDraw).value
      && r.value.act == Act(receiver, r.value.signal, actDraw).value
    ensures r.Success? && r.value.act == state ==>
      && AddedOne(sender, r.value.sender, state, r.value.signal)
      && AddedOne(receiver, r.value.receiver, r.value.signal, state)
    ensures r.Success? && r.value.act != state ==> r.value.sender == sender && r.value.receiver == receiver
  {
    var signal :- Signal(sender, state, signalDraw);
    var act :- Act(receiver, signal, actDraw);
    if state == act then
      // Both urns were just drawn from, so neither put_ball can miss its key.
      var learners := Reinforce(state, signal, sender, receiver).value;
      Success(Round(signal, act, learners.0, learners.1))
    else
      Success(Round(signal, act, sender, receiver))
  }

  /**
   `positive_negative_strategy`: as the positive strategy when the act is the
   state; otherwise both learners are punished at the drawn urns.
   */
  function PositiveNegativeStrategy<S(==,!new), G(==,!new)>(
    state: S, sender: Sender<S, G>, receiver: Receiver<S, G>, signalDraw: nat, actDraw: nat
  ): (r: Result<Round<S, G>>)
    ensures r.Success? <==> PositiveStrategy(state, sender, receiver, signalDraw, actDraw).Success?
    ensures r.Failure? ==> r == PositiveStrategy(state, sender, receiver, signalDraw, actDraw)
    ensures r.Success? ==> DrawnFrom(r.value, state, sender, receiver)
    ensures r.Success? ==>
      && r.value.signal == Signal(sender, state, signalDraw).value
      && r.value.act == Act(receiver, r.value.signal, actDraw).value
    ensures r.Success? && r.value.act == state ==> r == PositiveStrategy(state, sender, receiver, signalDraw, actDraw)
    ensures r.Success? && r.value.act != state ==>
      && RemovedButOne(sender, r.value.sender, state, r.value.signal)
      && RemovedButOne(receiver, r.value.receiver, r.value.signal, state)
  {
    var signal :- Signal(sender, state, signalDraw);
    var act :- Act(receiver, signal, actDraw);
    if state == act then
      var learners := Reinforce(state, signal, sender, receiver).value;
      Success(Round(signal, act, learners.0, learners.1))
    else
      // Both urns were just drawn from, so neither remove_but_one can miss its key.
      var learners := Punish(state, signal, sender, receiver).value;
      Success(Round(signal, act, learners.0, learners.1))
  }

  /** The payoff modes the simulation accepts. */
  datatype Payoff = Positive | PositiveNegative

  /** One round under the chosen payoff mode. */
  function PlayRound<S(==,!new), G(==,!new)>(
    payoff: Payoff, state: S, sender: Sender<S, G>, receiver: Receiver<S, G>, signalDraw: nat, actDraw: nat
  ): Result<Round<S, G>>
  {
    match payoff
    case Positive => PositiveStrategy(state, sender, receiver, signalDraw, actDraw)
    case PositiveNegative => PositiveNegativeStrategy(state, sender, receiver, signalDraw, actDraw)
  }

  /** The random choices of one round: the state, then the two draws. */
  datatype Draw<S> = Draw(state: S, signalDraw: nat, actDraw: nat)

  /** Rounds played one after the other, each on the learners the previous one left. */
  function Play<S(==,!new), G(==,!new)>(
    payoff: Payoff, draws: seq<Draw<S>>, sender: Sender<S, G>, receiver: Receiver<S, G>
  ): Result<(Sender<S, G>, Receiver<S, G>)>
    decreases |draws|
  {
    if |draws| == 0 then Success((sender, receiver))
    else
      var round :- PlayRound(payoff, draws[0].state, sender, receiver, draws[0].signalDraw, draws[0].actDraw);
      Play(payoff, draws[1..], round.sender, round.receiver)
  }

  /**
   The learners of a game over the given states and signals: the Sender has
   exactly one urn per state, each holding every signal and nothing else; the
   Receiver has exactly one urn per signal, each holding every state and
   nothing else.
   */
  ghost predicate Consistent<S, G>(sender: Sender<S, G>, receiver: Receiver<S, G>, states: set<S>, signals: set<G>)
  {
    && states != {}
    && signals != {}
    && Registered(sender.urns, states, signals)
    && Registered(receiver.urns, signals, states)
  }

  /** The learners a new game starts from are consistent. */
  lemma StartConsistent<S, G>(states: seq<S>, signals: seq<G>)
    requires |states| > 0 && |signals| > 0
    ensures Consistent(NewLearner(states, signals), NewLearner(signals, states),
                       Elements(states), Elements(signals))
  {
    InitialUrnsRegistered(states, signals);
    InitialUrnsRegistered(signals, states);
    assert states[0] in Elements(states);
    assert signals[0] in Elements(signals);
    assert Elements(states) != {};
    assert Elements(signals) != {};
  }

  /**
   A round on consistent learners, for a state of the game, never raises: every
   urn it reads or changes exists and both draws find a ball. The learners it
   leaves are consistent again.
   */
  lemma RoundKeepsConsistent<S(!new), G(!new)>(
    payoff: Payoff, state: S, sender: Sender<S, G>, receiver: Receiver<S, G>, signalDraw: nat, actDraw: nat,
    states: set<S>, signals: set<G>)
    requires Consistent(sender, receiver, states, signals)
    requires state in states
    ensures PlayRound(payoff, state, sender, receiver, signalDraw, actDraw).Success?
    ensures var round := PlayRound(payoff, state, sender, receiver, signalDraw, actDraw).value;
            Consistent(round.sender, round.receiver, states, signals)
  {
    var g :| g in signals;
    assert g in sender.urns[state];
    var signal := Signal(sender, state, signalDraw).value;
    assert signal in signals;
    assert state in receiver.urns[signal];
    var act := Act(receiver, signal, actDraw).value;
    if state == act {
      PutBallRegistered(sender, state, signal, states, signals);
      var sender' := PutBall(sender, state, signal).value;
      PutBallRegistered(receiver, signal, state, signals, states);
    } else if payoff == PositiveNegative {
      RemoveButOneRegistered(sender, state, signal, states, signals);
      RemoveButOneRegistered(receiver, signal, state, signals, states);
    }
  }

  /**
   Any sequence of rounds whose states belong to the game runs to the end
   without raising and leaves consistent learners: the urn keys never change,
   every label stays present in every urn, and no foreign label enters.
   */
  lemma {:induction false} PlayKeepsConsistent<S(!new), G(!new)>(
    payoff: Payoff, draws: seq<Draw<S>>, sender: Sender<S, G>, receiver: Receiver<S, G>,
    states: set<S>, signals: set<G>)
    requires Consistent(sender, receiver, states, signals)
    requires forall i :: 0 <= i < |draws| ==> draws[i].state in states
    ensures Play(payoff, draws, sender, receiver).Success?
    ensures var learners := Play(payoff, draws, sender, receiver).value;
            Consistent(learners.0, learners.1, states, signals)
    decreases |draws|
  {
    if |draws| > 0 {
      var d := draws[0];
      RoundKeepsConsistent(payoff, d.state, sender, receiver, d.signalDraw, d.actDraw, states, signals);
      var round := PlayRound(payoff, d.state, sender, receiver, d.signalDraw, d.actDraw).value;
      PlayKeepsConsistent(payoff, draws[1..], round.sender, round.receiver, states, signals);
    }
  }

  /**
   What consistency means for the counts: every label of the game keeps at
   least one ball in every urn, and with labels listed once each, every urn
   holds at least as many balls as there are labels.
   */
  lemma ConsistentCounts<S, G>(sender: Sender<S, G>, receiver: Receiver<S, G>, states: seq<S>, signals: seq<G>)
    requires Consistent(sender, receiver, Elements(states), Elements(signals))
    ensures forall s, g :: s in sender.urns && g in signals ==> Count(sender.urns[s], g) >= 1
    ensures forall g, s :: g in receiver.urns && s in states ==> Count(receiver.urns[g], s) >= 1
    ensures Distinct(signals) ==> forall s :: s in sender.urns ==> |sender.urns[s]| >= |signals|
    ensures Distinct(states) ==> forall g :: g in receiver.urns ==> |receiver.urns[g]| >= |states|
  {
    forall s, g | s in sender.urns && g in signals
      ensures Count(sender.urns[s], g) >= 1
    {
      assert g in Elements(signals);
      CountPositive(sender.urns[s], g);
    }
    forall g, s | g in receiver.urns && s in states
      ensures Count(receiver.urns[g], s) >= 1
    {
      assert s in Elements(states);
      CountPositive(receiver.urns[g], s);
    }
    forall s | Distinct(signals) && s in sender.urns
      ensures |sender.urns[s]| >= |signals|
    {
      forall g | g in signals
        ensures g in sender.urns[s]
      {
        assert g in Elements(signals);
      }
      CoverLength(signals, sender.urns[s]);
    }
    forall g | Distinct(states) && g in receiver.urns
      ensures |receiver.urns[g]| >= |states|
    {
      forall s | s in states
        ensures s in receiver.urns[g]
      {
        assert s in Elements(states);
      }
      CoverLength(states, receiver.urns[g]);
    }
  }

  /**
   A whole simulation: learners built over the listed states and signals, then
   any sequence of rounds over those states. It needs at least one signal
   (`NoSignalsFailsFirstRound` shows what happens without one). It never raises; the urn keys
   are still the states (Sender) and the signals (Receiver); every label keeps
   at least one ball; no urn holds fewer balls than the other side has
   labels, when those are listed once each; and when both label lists are
   listed once each, no urn holds fewer balls than it started with.
   */
  lemma SimulationInvariants<S(!new), G(!new)>(
    payoff: Payoff, states: seq<S>, signals: seq<G>, draws: seq<Draw<S>>)
    requires |states| > 0 && |signals| > 0
    requires forall i :: 0 <= i < |draws| ==> draws[i].state in states
    ensures Play(payoff, draws, NewLearner(states, signals), NewLearner(signals, states)).Success?
    ensures var learners := Play(payoff, draws, NewLearner(states, signals), NewLearner(signals, states)).value;
      && learners.0.urns.Keys == Elements(states)
      && learners.1.urns.Keys == Elements(signals)
      && (forall s, g :: s in learners.0.urns && g in signals ==> Count(learners.0.urns[s], g) >= 1)
      && (forall g, s :: g in learners.1.urns && s in states ==> Count(learners.1.urns[g], s) >= 1)
      && (Distinct(signals) ==> forall s :: s in learners.0.urns ==> |learners.0.urns[s]| >= |signals|)
      && (Distinct(states) ==> forall g :: g in learners.1.urns ==> |learners.1.urns[g]| >= |states|)
      && (Distinct(states) && Distinct(signals) ==>
            && (forall s :: s in learners.0.urns ==> |learners.0.urns[s]| >= |NewLearner(states, signals).urns[s]|)
            && (forall g :: g in learners.1.urns ==> |learners.1.urns[g]| >= |NewLearner(signals, states).urns[g]|))
  {
    var sender := NewLearner(states, signals);
    var receiver := NewLearner(signals, states);
    StartConsistent(states, signals);
    PlayKeepsConsistent(payoff, draws, sender, receiver, Elements(states), Elements(signals));
    var learners := Play(payoff, draws, sender, receiver).value;
    ConsistentCounts(learners.0, learners.1, states, signals);
  }

  /**
   A game without signals cannot play a round: `create_urns` gives the Sender
   no urn at all, so the first draw raises KeyError, whatever the states and
   the payoff.
   */
  lemma NoSignalsFailsFirstRound<S(!new), G(!new)>(payoff: Payoff, states: seq<S>, draws: seq<Draw<S>>)
    requires |draws| > 0
    ensures Play(payoff, draws, NewLearner<S, G>(states, []), NewLearner<G, S>([], states)) == Failure(UnknownUrn)
  {
    var sender: Sender<S, G> := NewLearner(states, []);
    assert draws[0].state !in sender.urns;
  }

  /** The learners of a game whose state 0 is listed twice and whose only signal is 7. */
  lemma RepeatedStateStart()
    ensures NewLearner([0, 0, 1], [7]) == UrnLearner(map[0 := [7, 7], 1 := [7]])
    ensures NewLearner([7], [0, 0, 1]) == UrnLearner(map[7 := [0, 0, 1]])
  {
    var u := InitialUrns([0, 0, 1], [7]);
    InitialUrnsKeys([0, 0, 1], [7]);
    assert Elements([0, 0, 1]) == {0, 1};
    InitialUrnsShape([0, 0, 1], [7], 0);
    InitialUrnsShape([0, 0, 1], [7], 1);
    assert Count([0, 0, 1], 0) == 2 && Count([0, 0, 1], 1) == 1;
    assert Repeat([7], 2) == [7, 7] && Repeat([7], 1) == [7];
    assert u == map[0 := [7, 7], 1 := [7]];
    RepeatedStateReceiver();
  }

  /** The Receiver of that game: one urn, for signal 7, holding each state as listed. */
  lemma RepeatedStateReceiver()
    ensures NewLearner([7], [0, 0, 1]) == UrnLearner(map[7 := [0, 0, 1]])
  {
    InitialUrnsKeys([7], [0, 0, 1]);
    assert forall x :: x in Elements([7]) <==> x == 7;
    assert Elements([7]) == {7};
    InitialUrnsShape([7], [0, 0, 1], 7);
    assert Repeat([0, 0, 1], 1) == [0, 0, 1];
  }

  /**
   The length bound of `SimulationInvariants` needs labels listed once each.
   With state 0 listed twice, the Sender's urn of 0 starts with two copies of
   signal 7; one punished round takes a copy back and leaves it shorter than
   it started, although the only signal is listed once.
   */
  lemma RepeatedStateCanShrinkUrn()
    ensures var r := PositiveNegativeStrategy(0, NewLearner([0, 0, 1], [7]), NewLearner([7], [0, 0, 1]), 0, 2);
      && NewLearner([0, 0, 1], [7]).urns[0] == [7, 7]
      && r.Success?
      && r.value.act == 1
      && r.value.sender.urns[0] == [7]
  {
    RepeatedStateStart();
    PunishedRoundShrinks();
  }

  /** The punished round of `RepeatedStateCanShrinkUrn`, on the learners spelled out. */
  lemma PunishedRoundShrinks()
    ensures var r := PositiveNegativeStrategy(0, UrnLearner(map[0 := [7, 7], 1 := [7]]), UrnLearner(map[7 := [0, 0, 1]]), 0, 2);
      && r.Success?
      && r.value.act == 1
      && r.value.sender.urns[0] == [7]
  {
    var sender := UrnLearner(map[0 := [7, 7], 1 := [7]]);
    var receiver := UrnLearner(map[7 := [0, 0, 1]]);
    assert Signal(sender, 0, 0) == Success(7);
    assert Act(receiver, 7, 2) == Success(1);
    assert Count([7, 7], 7) == 2;
    assert RemoveFirst([7, 7], 7) == [7];
  }

  /** Every urn of `after` extends the urn of the same type in `before`, and there are no new urns. */
  ghost predicate Grown<K, B>(before: UrnLearner<K, B>, after: UrnLearner<K, B>)
  {
    && after.urns.Keys == before.urns.Keys
    && forall t :: t in before.urns ==> before.urns[t] <= after.urns[t]
  }

  /**
   Under the positive payoff urns only grow: every ball ever put in stays, in
   place, so no label's count in any urn ever goes down.
   */
  lemma {:induction false} PositivePlayGrows<S(!new), G(!new)>(
    draws: seq<Draw<S>>, sender: Sender<S, G>, receiver: Receiver<S, G>)
    requires Play(Positive, draws, sender, receiver).Success?
    ensures var learners := Play(Positive, draws, sender, receiver).value;
      && Grown(sender, learners.0)
      && Grown(receiver, learners.1)
      && (forall t, g :: t in sender.urns ==> Count(sender.urns[t], g) <= Count(learners.0.urns[t], g))
      && (forall t, s :: t in receiver.urns ==> Count(receiver.urns[t], s) <= Count(learners.1.urns[t], s))
    decreases |draws|
  {
    var learners := Play(Positive, draws, sender, receiver).value;
    if |draws| > 0 {
      var d := draws[0];
      var round := PositiveStrategy(d.state, sender, receiver, d.signalDraw, d.actDraw).value;
      PositivePlayGrows(draws[1..], round.sender, round.receiver);
      assert Grown(sender, round.sender);
      assert Grown(receiver, round.receiver);
    }
    forall t, g | t in sender.urns
      ensures Count(sender.urns[t], g) <= Count(learners.0.urns[t], g)
    {
      CountPrefix(sender.urns[t], learners.0.urns[t], g);
    }
    forall t, s | t in receiver.urns
      ensures Count(receiver.urns[t], s) <= Count(learners.1.urns[t], s)
    {
      CountPrefix(receiver.urns[t], learners.1.urns[t], s);
    }
  }
}
