# Urn learning for the Lewis signaling game

A Dafny model of the learning engine of `signaling.py`, a simulation of a
Lewis signaling game between a Sender and a Receiver that learn by
Roth–Erev style urn reinforcement.

An urn is a Python list of ball labels, and a learner (`UrnLearner`) maps each
urn type to one urn. Drawing a ball uniformly from the list picks each label
with probability proportional to its number of copies. The Sender's urns are
indexed by state and hold signals. The Receiver's urns are indexed by signal
and hold states (acts). In one round the Sender draws a signal from the urn of
the state and the Receiver draws an act from the urn of that signal.
`positive_strategy` puts one more ball into each of the two urns when the act
equals the state. `positive_negative_strategy` also calls `remove_but_one` on
both urns when it does not. That call takes one ball back, but only when more
than one copy of the label is present.

The model has three modules:

- `Lists` (`lists.dfy`) holds the list operations the learner relies on.
  `Count` is the filtered list comprehension of line 24. `RemoveFirst` is
  `list.remove`. `Repeat` is what `create_urns` builds for an urn type listed
  more than once.
- `Urns` (`urns.dfy`) holds `create_urns` and the three `UrnLearner`
  operations over `map<K, seq<B>>`. Python's exceptions become a `Result`:
  `UnknownUrn` for the `KeyError` of a missing urn type, and `EmptyUrn` for
  the `IndexError` that `random.choice` raises on an empty list.
- `Signaling` (`signaling.dfy`) holds the Sender and Receiver roles, the two
  strategies and a sequence of rounds. It also holds the invariants that hold
  over any run.

`random.choice` is replaced by a caller-supplied `draw: nat`. The ball drawn is
the one at position `draw` modulo the urn's length. `ChooseBallProportional`
shows that, out of the `|urn|` draws below the length, exactly `Count(urn, b)`
pick `b`. A round is then a function of the learners, the state and the two
draws. A run is a function of a sequence of `Draw(state, signalDraw, actDraw)`
values.

Reinforcement and punishment are both counts of whole balls. `put_ball` adds
one copy of a label. `remove_but_one` takes one copy back only when there is
more than one, and never adds a ball.

## Model

| member | source | states |
|---|---|---|
| `Urns.CreateUrns` | signaling.py:4-11 | The nested loop computes `InitialUrns`, the listing-by-listing reading of `create_urns`. The keys are exactly the listed urn types, or there are no keys at all when there are no ball types, because a key is only created before its first append. With urn types listed once each, every urn equals the ball types in order. |
| `Urns.InitialUrnsShape` | signaling.py:4-11 | Closed form of the built urns: with at least one ball type, an urn type has an urn exactly when it is listed, and an urn type listed `n` times holds the ball types `n` times over. |
| `Urns.InitialUrnsKeys` | signaling.py:4-11 | The urn types with an urn are exactly the listed ones, or none when there are no ball types. With urn types listed once each, every urn equals the ball types in order. |
| `Urns.NewLearner` | signaling.py:14-15 | A new learner owns the urns `create_urns` builds: one per listed urn type (none without ball types), each equal to the ball types when urn types are listed once each. |
| `Urns.InitialUrnsRegistered` | signaling.py:4-11 | With at least one ball type, the urn keys are exactly the urn types. Every urn holds every ball type and no other label. |
| `Urns.ChooseBall` | signaling.py:17-18 | A missing urn type fails with `UnknownUrn` (KeyError). An empty urn fails with `EmptyUrn` (IndexError). Otherwise the draw succeeds and returns a ball of that urn. |
| `Urns.ChooseBallProportional` | signaling.py:17-18 | Among the `|urn|` equally likely draws, exactly `Count(urn, b)` return `b`, so a label is drawn in proportion to its number of copies. |
| `Urns.PutBall` | signaling.py:20-21 | Fails with `UnknownUrn` exactly when the urn type is missing. Otherwise it appends `b` to that urn. The count of `b` rises by exactly one, every other label's count and every other urn are unchanged, and the key set is unchanged. |
| `Urns.RemoveButOne` | signaling.py:23-25 | Fails with `UnknownUrn` exactly when the urn type is missing. With more than one copy of `b`, the first copy is removed and the count drops by exactly one. Otherwise the learner is unchanged. A present label never disappears, other labels and other urns are unchanged, and the urn loses at most one ball. |
| `Lists.CountIsMultiplicity` | signaling.py:24 | The length of the filtered comprehension `[b for b in urn if b == ball]` equals the multiplicity of the label in the urn's multiset. |
| `Lists.RemoveFirst` | signaling.py:25 | `list.remove` deletes the element at the first position that holds the label and keeps the rest in order. |
| `Lists.RemoveFirstCount` | signaling.py:25 | `list.remove` removes exactly one copy of the label (multiset difference) and shortens the list by one. No other label's count changes. |
| `Urns.PutBallRegistered` | signaling.py:20-21 | Appending a registered label to a registered urn type succeeds. Afterwards every urn still holds every label and only registered labels. |
| `Urns.RemoveButOneRegistered` | signaling.py:23-25 | Punishing a registered urn type succeeds. Afterwards every urn still holds every label and only registered labels. |
| `Signaling.Signal` | signaling.py:27-29 | `Sender.signal` succeeds exactly when the state's urn exists and is non-empty, and returns a signal from that urn. |
| `Signaling.Act` | signaling.py:31-33 | `Receiver.act` succeeds exactly when the signal's urn exists and is non-empty, and returns a state from that urn. |
| `Signaling.Reinforce` | signaling.py:38-40 | The two `put_ball` calls succeed exactly when both urns exist. Then the Sender's urn of the state gains one copy of the signal, the Receiver's urn of the signal gains one copy of the state, and nothing else changes. |
| `Signaling.Punish` | signaling.py:48-50 | The two `remove_but_one` calls succeed exactly when both urns exist. Each then applies the remove-but-one rule to its own urn and label. |
| `Signaling.PositiveStrategy` | signaling.py:35-40 | The round succeeds exactly when the state has a non-empty Sender urn and the drawn signal has a non-empty Receiver urn. Otherwise it fails with the error of the first draw that raises: `UnknownUrn` for a missing urn (KeyError), `EmptyUrn` for an empty one (IndexError). On success the signal is `Signal` of the signal draw and the act is `Act` of the act draw on that signal. When the act equals the state, both learners gain exactly one ball. Otherwise neither learner changes. |
| `Signaling.PositiveNegativeStrategy` | signaling.py:42-50 | It succeeds exactly when `PositiveStrategy` does, and fails with the same error. It draws the same signal and act. When the act equals the state, it returns what `PositiveStrategy` returns. Otherwise it applies remove-but-one to the Sender at (state, signal) and to the Receiver at (signal, state). |
| `Signaling.StartConsistent` | signaling.py:60-63 | A Sender built over (states, signals) and a Receiver built over (signals, states), both lists non-empty, are consistent. Each has one urn per key, and each urn holds every label of the other side and nothing else. |
| `Signaling.RoundKeepsConsistent` | signaling.py:35-50 | Given consistent learners and a state of the game, a round under either payoff never raises, because every urn it reads or changes exists and both draws find a ball. It leaves consistent learners. |
| `Signaling.PlayKeepsConsistent` | signaling.py:64-69 | Any sequence of rounds whose states belong to the game runs to the end without raising and leaves consistent learners. |
| `Signaling.ConsistentCounts` | signaling.py:23-25 | In consistent learners every label of the game has count at least one in every urn. With labels listed once each, every urn is at least as long as its label list. |
| `Signaling.SimulationInvariants` | signaling.py:60-69 | From freshly built learners over non-empty states and signals, any sequence of rounds over the listed states succeeds under either payoff. The key sets are still the states (Sender) and the signals (Receiver), and every label keeps count at least one. No urn holds fewer balls than the other side has labels, when those are listed once each. When both lists are listed once each, no urn holds fewer balls than it started with. |
| `Signaling.RepeatedStateCanShrinkUrn` | signaling.py:23-25 | The length bound needs the urn types listed once each. With state 0 listed twice and the single signal 7, the Sender's urn of 0 starts as `[7, 7]`, and one punished round (act 1) leaves `[7]`. |
| `Signaling.NoSignalsFailsFirstRound` | signaling.py:60-66 | With no signals the Sender gets no urn at all, so the first round of any run fails with `UnknownUrn`, the KeyError of `sender.signal`, under either payoff. This is why a simulation needs at least one signal. |
| `Signaling.PositivePlayGrows` | signaling.py:35-40 | Under the positive payoff every urn only grows by appending, with the same key set, so no label's count in any urn ever decreases. |

## Left out

- `main` (signaling.py:52-87) is not modelled. That covers argument parsing, the epoch loop's random choice of a state, the `TypeError` for an unknown payoff name and the printing of ball counts. `Payoff` has just the two accepted modes, and `Play` takes the drawn states as input.
- `random.choice` is not modelled as a random source. Each draw is a parameter, and `ChooseBallProportional` states the resulting distribution as a count of draws.
- An exception in Python can leave a learner partly mutated, for example when a second `put_ball` raises after the first succeeded. The model returns a `Failure` without a learner state instead. `RoundKeepsConsistent` shows that for consistent learners, and inside a strategy once both draws have succeeded, no update can fail.
- The learners are in-place mutable objects in Python and are immutable values here. A Sender and a Receiver that share one urn dictionary (aliasing) are not modelled, and `main` never builds such a pair.
- Ball and urn labels are generic types with Dafny equality. Python's `==` on arbitrary objects, such as user-defined `__eq__`, is not modelled. The program itself only uses integers.
- Convergence of the success rate is not modelled. It is a statistical property of many runs, not a property of one run.
