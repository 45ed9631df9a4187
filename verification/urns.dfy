/**
 The urn store of the learner. An urn is a list of ball labels (drawing a ball
 uniformly from the list makes each label as likely as its number of copies);
 a learner owns one urn per urn type. The three urn operations are a draw, a
 reinforcement that adds a ball, and a punishment that takes a ball back but
 never the last copy of its label.
 */
module Urns {
  import opened Lists

  /**
   Failures of the urn operations: an urn type the learner has no urn for
   (Python's KeyError on `self.urns[urn_type]`) and a draw from an empty urn
   (the IndexError `random.choice` raises on an empty list).
   */
  datatype Error = UnknownUrn | EmptyUrn

  datatype Result<+T> = Success(value: T) | Failure(error: Error) {
    predicate IsFailure() {
      Failure?
    }

    function PropagateFailure<U>(): Result<U>
      requires Failure?
    {
      Failure(error)
    }

    function Extract(): T
      requires Success?
    {
      value
    }
  }

  /**
   The urns `create_urns` builds, one listed urn type at a time: the urn of the
   last listed type is created if needed and gets the ball types appended. The
   key is only created together with the first ball, so no ball types means no
   urns at all.
   */
  function InitialUrns<K(==), B>(urnTypes: seq<K>, ballTypes: seq<B>): map<K, seq<B>>
    decreases |urnTypes|
  {
    if |urnTypes| == 0 || |ballTypes| == 0 then map[]
    else
      var urns := InitialUrns(urnTypes[..|urnTypes| - 1], ballTypes);
      var t := urnTypes[|urnTypes| - 1];
      urns[t := (if t in urns then urns[t] else []) + ballTypes]
  }

  /**
   Closed form of `InitialUrns`: with at least one ball type there is an urn
   for exactly the listed urn types, and an urn type listed `n` times holds
   the ball types `n` times over.
   */
  lemma {:induction false} InitialUrnsShape<K, B>(urnTypes: seq<K>, ballTypes: seq<B>, t: K)
    requires |ballTypes| > 0
    ensures t in InitialUrns(urnTypes, ballTypes) <==> t in urnTypes
    ensures t in urnTypes ==> InitialUrns(urnTypes, ballTypes)[t] == Repeat(ballTypes, Count(urnTypes, t))
  {
    if |urnTypes| > 0 {
      var n := |urnTypes| - 1;
      var p := urnTypes[..n];
      var u := urnTypes[n];
      assert urnTypes == p + [u];
      InitialUrnsShape(p, ballTypes, t);
      CountSnocAt(p, u, t);
      if t == u {
        CountPositive(p, t);
        var c := Count(p, t);
        assert Repeat(ballTypes, c + 1) == Repeat(ballTypes, c) + ballTypes;
      } else {
        assert t in urnTypes <==> t in p;
      }
    }
  }

  /**
   `create_urns` as written: for every urn type and then every ball type,
   create the urn on first use and append the ball.
   */
  method CreateUrns<K(==), B>(urnTypes: seq<K>, ballTypes: seq<B>) returns (urns: map<K, seq<B>>)
    ensures urns == InitialUrns(urnTypes, ballTypes)
    ensures urns.Keys == if |ballTypes| == 0 then {} else Elements(urnTypes)
    ensures Distinct(urnTypes) ==> forall t :: t in urns ==> urns[t] == ballTypes
  {
    urns := map[];
    for i := 0 to |urnTypes|
      invariant urns == InitialUrns(urnTypes[..i], ballTypes)
    {
      var t := urnTypes[i];
      ghost var before := urns;
      ghost var prior := if t in before then before[t] else [];
      for j := 0 to |ballTypes|
        invariant j == 0 ==> urns == before
        invariant j > 0 ==> urns == before[t := prior + ballTypes[..j]]
      {
        if t !in urns {
          urns := urns[t := []];
        }
        assert urns[t] == prior + ballTypes[..j];
        urns := urns[t := urns[t] + [ballTypes[j]]];
        assert ballTypes[..j + 1] == ballTypes[..j] + [ballTypes[j]];
        assert urns[t] == prior + ballTypes[..j + 1];
      }
      assert urnTypes[..i + 1][..i] == urnTypes[..i];
      if |ballTypes| > 0 {
        assert ballTypes[..|ballTypes|] == ballTypes;
        assert urns == before[t := prior + ballTypes];
        assert urnTypes[..i + 1][i] == t;
        assert InitialUrns(urnTypes[..i + 1], ballTypes) == before[t := prior + ballTypes];
      } else {
        assert urns == before == InitialUrns(urnTypes[..i + 1], ballTypes) == map[];
      }
    }
    assert urnTypes[..|urnTypes|] == urnTypes;
    InitialUrnsKeys(urnTypes, ballTypes);
  }

  /**
   The urn types that get an urn: the listed ones, or none at all when there
   are no ball types. With urn types listed once each, every urn holds the
   ball types in order.
   */
  lemma InitialUrnsKeys<K, B>(urnTypes: seq<K>, ballTypes: seq<B>)
    ensures InitialUrns(urnTypes, ballTypes).Keys == if |ballTypes| == 0 then {} else Elements(urnTypes)
    ensures Distinct(urnTypes) ==>
      forall t :: t in InitialUrns(urnTypes, ballTypes) ==> InitialUrns(urnTypes, ballTypes)[t] == ballTypes
  {
    if |ballTypes| > 0 {
      forall t
        ensures t in InitialUrns(urnTypes, ballTypes) <==> t in Elements(urnTypes)
      {
        InitialUrnsShape(urnTypes, ballTypes, t);
      }
      forall t | Distinct(urnTypes) && t in InitialUrns(urnTypes, ballTypes)
        ensures InitialUrns(urnTypes, ballTypes)[t] == ballTypes
      {
        InitialUrnsShape(urnTypes, ballTypes, t);
        DistinctCountOne(urnTypes, t);
        assert Repeat(ballTypes, 1) == [] + ballTypes;
      }
    }
  }

  /**
   Every urn of `urns` belongs to one of `keys` and every key has an urn; every
   urn holds at least one copy of every label in `balls` and no other label.
   */
  predicate Registered<K, B>(urns: map<K, seq<B>>, keys: set<K>, balls: set<B>)
  {
    && urns.Keys == keys
    && (forall t, b :: t in urns && b in balls ==> b in urns[t])
    && (forall t, b :: t in urns && b in urns[t] ==> b in balls)
  }

  /** The urns `create_urns` builds are registered over the listed urn and ball types. */
  lemma InitialUrnsRegistered<K, B>(urnTypes: seq<K>, ballTypes: seq<B>)
    requires |ballTypes| > 0
    ensures Registered(InitialUrns(urnTypes, ballTypes), Elements(urnTypes), Elements(ballTypes))
  {
    forall t
      ensures t in InitialUrns(urnTypes, ballTypes) <==> t in Elements(urnTypes)
    {
      InitialUrnsShape(urnTypes, ballTypes, t);
    }
    assert InitialUrns(urnTypes, ballTypes).Keys == Elements(urnTypes);
    forall t, b | t in InitialUrns(urnTypes, ballTypes) && b in Elements(ballTypes)
      ensures b in InitialUrns(urnTypes, ballTypes)[t]
    {
      InitialUrnsShape(urnTypes, ballTypes, t);
      CountPositive(urnTypes, t);
      RepeatMembership(ballTypes, Count(urnTypes, t), b);
    }
    forall t, b | t in InitialUrns(urnTypes, ballTypes) && b in InitialUrns(urnTypes, ballTypes)[t]
      ensures b in Elements(ballTypes)
    {
      InitialUrnsShape(urnTypes, ballTypes, t);
      CountPositive(urnTypes, t);
      RepeatMembership(ballTypes, Count(urnTypes, t), b);
    }
  }

  /** A Sender or a Receiver: one urn per urn type. */
  datatype UrnLearner<K, B> = UrnLearner(urns: map<K, seq<B>>)

  /** `UrnLearner.__init__`: the learner owns the urns `create_urns` builds. */
  function NewLearner<K(==), B>(urnTypes: seq<K>, ballTypes: seq<B>): (l: UrnLearner<K, B>)
    ensures l.urns.Keys == if |ballTypes| == 0 then {} else Elements(urnTypes)
    ensures Distinct(urnTypes) ==> forall t :: t in l.urns ==> l.urns[t] == ballTypes
  {
    InitialUrnsKeys(urnTypes, ballTypes);
    UrnLearner(InitialUrns(urnTypes, ballTypes))
  }

  /**
   `choose_ball`: `random.choice` on the urn of `t`. The random source is the
   caller-supplied `draw`; the ball drawn is the one at position `draw` modulo
   the urn's length.
   */
  function ChooseBall<K, B>(l: UrnLearner<K, B>, t: K, draw: nat): (r: Result<B>)
    ensures t !in l.urns ==> r == Failure(UnknownUrn)
    ensures t in l.urns && |l.urns[t]| == 0 ==> r == Failure(EmptyUrn)
    ensures r.Success? <==> t in l.urns && |l.urns[t]| > 0
    ensures r.Success? ==> r.value in l.urns[t]
  {
    if t !in l.urns then Failure(UnknownUrn)
    else if |l.urns[t]| == 0 then Failure(EmptyUrn)
    else Success(l.urns[t][draw % |l.urns[t]|])
  }

  /** The draws among `0 .. |urn| - 1` that pick ball `b` from the urn of `t`. */
  function DrawsOf<K, B(==)>(l: UrnLearner<K, B>, t: K, b: B): set<nat>
    requires t in l.urns
  {
    set i: nat | i < |l.urns[t]| && ChooseBall(l, t, i) == Success(b)
  }

  /**
   Drawing is proportional to the number of copies: out of the `|urn|` equally
   likely draws, exactly `Count(urn, b)` pick ball `b`.
   */
  lemma ChooseBallProportional<K, B>(l: UrnLearner<K, B>, t: K, b: B)
    requires t in l.urns
    ensures |DrawsOf(l, t, b)| == Count(l.urns[t], b)
  {
    var urn := l.urns[t];
    forall i: nat | i < |urn|
      ensures i in DrawsOf(l, t, b) <==> i in Positions(urn, b)
    {
      assert i % |urn| == i;
    }
    assert DrawsOf(l, t, b) == Positions(urn, b);
    PositionsCount(urn, b);
  }

  /**
   `after` is `before` with exactly one more ball of label `b`, at the end of
   the urn of `t`: no other label of that urn and no other urn changes.
   */
  ghost predicate AddedOne<K, B(!new)>(before: UrnLearner<K, B>, after: UrnLearner<K, B>, t: K, b: B)
  {
    && t in before.urns
    && after.urns.Keys == before.urns.Keys
    && after.urns[t] == before.urns[t] + [b]
    && Count(after.urns[t], b) == Count(before.urns[t], b) + 1
    && (forall c :: c != b ==> Count(after.urns[t], c) == Count(before.urns[t], c))
    && (forall u :: u in before.urns && u != t ==> after.urns[u] == before.urns[u])
  }

  /**
   `after` is `before` punished at label `b` of the urn of `t`: with more than
   one copy of `b`, the first copy is gone; with one copy or none, nothing
   changed. No other label of that urn and no other urn changes.
   */
  ghost predicate RemovedButOne<K, B(!new)>(before: UrnLearner<K, B>, after: UrnLearner<K, B>, t: K, b: B)
  {
    && t in before.urns
    && after.urns.Keys == before.urns.Keys
    && (Count(before.urns[t], b) > 1 ==>
          && b in before.urns[t]
          && Count(after.urns[t], b) == Count(before.urns[t], b) - 1
          && var i := FirstIndex(before.urns[t], b);
             after.urns[t] == before.urns[t][..i] + before.urns[t][i + 1..])
    && (Count(before.urns[t], b) <= 1 ==> after == before)
    && (forall c :: c in after.urns[t] <==> c in before.urns[t])
    && (forall c :: c != b ==> Count(after.urns[t], c) == Count(before.urns[t], c))
    && (forall u :: u in before.urns && u != t ==> after.urns[u] == before.urns[u])
  }

  /** `put_ball`: append one ball of label `b` to the urn of `t`. */
  function PutBall<K, B(!new)>(l: UrnLearner<K, B>, t: K, b: B): (r: Result<UrnLearner<K, B>>)
    ensures r.Success? <==> t in l.urns
    ensures r.Failure? ==> r.error == UnknownUrn
    ensures r.Success? ==> AddedOne(l, r.value, t, b)
  {
    if t !in l.urns then Failure(UnknownUrn)
    else
      CountSnoc(l.urns[t], b);
      Success(UrnLearner(l.urns[t := l.urns[t] + [b]]))
  }

  /**
   `remove_but_one`: when the urn of `t` holds more than one copy of `b`, take
   the first copy out; otherwise leave the learner as it is. The last copy of
   a label is never removed, and a label never appears out of nothing.
   */
  function RemoveButOne<K, B(==,!new)>(l: UrnLearner<K, B>, t: K, b: B): (r: Result<UrnLearner<K, B>>)
    ensures r.Success? <==> t in l.urns
    ensures r.Failure? ==> r.error == UnknownUrn
    ensures r.Success? ==> RemovedButOne(l, r.value, t, b)
    ensures r.Success? ==> (Count(r.value.urns[t], b) >= 1 <==> Count(l.urns[t], b) >= 1)
    ensures r.Success? ==> |l.urns[t]| - 1 <= |r.value.urns[t]| <= |l.urns[t]|
  {
    if t !in l.urns then Failure(UnknownUrn)
    else if Count(l.urns[t], b) > 1 then
      CountPositive(l.urns[t], b);
      RemoveFirstCount(l.urns[t], b);
      assert forall c :: c in RemoveFirst(l.urns[t], b) <==> c in l.urns[t] by {
        forall c
          ensures c in RemoveFirst(l.urns[t], b) <==> c in l.urns[t]
        {
          CountPositive(RemoveFirst(l.urns[t], b), c);
          CountPositive(l.urns[t], c);
        }
      }
      Success(UrnLearner(l.urns[t := RemoveFirst(l.urns[t], b)]))
    else
      Success(l)
  }

  /** Reinforcing with a registered label keeps the urns registered. */
  lemma PutBallRegistered<K, B(!new)>(l: UrnLearner<K, B>, t: K, b: B, keys: set<K>, balls: set<B>)
    requires Registered(l.urns, keys, balls)
    requires t in keys && b in balls
    ensures PutBall(l, t, b).Success?
    ensures Registered(PutBall(l, t, b).value.urns, keys, balls)
  {
    var urns' := PutBall(l, t, b).value.urns;
    assert urns'[t] == l.urns[t] + [b];
  }

  /** Punishing keeps the urns registered: no label is ever lost or introduced. */
  lemma RemoveButOneRegistered<K, B(!new)>(l: UrnLearner<K, B>, t: K, b: B, keys: set<K>, balls: set<B>)
    requires Registered(l.urns, keys, balls)
    requires t in keys
    ensures RemoveButOne(l, t, b).Success?
    ensures Registered(RemoveButOne(l, t, b).value.urns, keys, balls)
  {
    var urns' := RemoveButOne(l, t, b).value.urns;
    forall c
      ensures c in urns'[t] <==> c in l.urns[t]
    {
      CountPositive(urns'[t], c);
      CountPositive(l.urns[t], c);
    }
  }
}
