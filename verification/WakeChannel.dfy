/**
 The wake channel between service calls and the reconcile loop: a buffer of one token, filled
 without blocking after each mutation and emptied by the loop before it lists the store.
 */
module WakeChannel {
  const CAPACITY := 1

  /** Kick: put a token in if there is room, otherwise the queued one stands for this call too. */
  function Kicked(wake: nat): nat {
    if wake < CAPACITY then wake + 1 else wake
  }

  /** Where the loop is: waiting, having decided to Tick but not listed yet, or reconciling a snapshot. */
  datatype Loop = Waiting | AboutToList | Reconciling

  /** Mutations are numbered; `unseen` ones no List has read yet, `kicked` ones have been announced. */
  datatype State = State(wake: nat, loop: Loop, unseen: set<nat>, kicked: set<nat>)

  /** `ListFails`: the Tick ends without having read anything. */
  datatype Event = Mutate(id: nat) | Kick(id: nat) | Timer | TakeWake | List | ListFails | Finish

  function Step(s: State, e: Event): State {
    match e
    case Mutate(id) => s.(unseen := s.unseen + {id}, kicked := s.kicked - {id})
    case Kick(id) => s.(wake := Kicked(s.wake), kicked := s.kicked + {id})
    case Timer => if s.loop == Waiting then s.(loop := AboutToList) else s
    case TakeWake => if s.loop == Waiting && s.wake > 0 then s.(wake := s.wake - 1, loop := AboutToList) else s
    case List => if s.loop == AboutToList then s.(loop := Reconciling, unseen := {}) else s
    case ListFails => if s.loop == AboutToList then s.(loop := Waiting) else s
    case Finish => if s.loop == Reconciling then s.(loop := Waiting) else s
  }

  function Run(s: State, es: seq<Event>): State
    decreases |es|
  {
    if es == [] then s else Run(Step(s, es[0]), es[1..])
  }

  /** The loop ticks once before it waits for the first time. */
  predicate Initial(s: State) {
    s == State(0, AboutToList, {}, {})
  }

  /** An announced mutation no List has read is covered by a queued token or a List about to happen. */
  predicate Inv(s: State) {
    s.wake <= CAPACITY && (s.unseen * s.kicked != {} ==> s.wake > 0 || s.loop == AboutToList)
  }

  /** A List fails on the last token for an announced, unread mutation. */
  predicate Drops(s: State, e: Event) {
    e == ListFails && s.loop == AboutToList && s.wake == 0 && s.unseen * s.kicked != {}
  }

  predicate NeverDrops(s: State, es: seq<Event>)
    decreases |es|
  {
    es != [] ==> !Drops(s, es[0]) && NeverDrops(Step(s, es[0]), es[1..])
  }

  predicate Always(s: State, es: seq<Event>)
    decreases |es|
  {
    Inv(s) && (es != [] ==> Always(Step(s, es[0]), es[1..]))
  }

  /** In every interleaving: no wake-up is ever lost exactly when no List fails on the last token. */
  lemma {:induction false} NoLostWakeUpIff(s: State, es: seq<Event>)
    requires Inv(s)
    ensures Always(s, es) <==> NeverDrops(s, es)
    decreases |es|
  {
    if es != [] && !Drops(s, es[0]) {
      NoLostWakeUpIff(Step(s, es[0]), es[1..]);
    }
  }

  lemma NoLostWakeUpFromStart(s: State, es: seq<Event>)
    requires Initial(s)
    ensures Always(s, es) <==> NeverDrops(s, es)
  {
    NoLostWakeUpIff(s, es);
  }

  /** One change, one Kick, one failed List: the change waits for the timer. */
  lemma FailedListLosesWakeUp(s: State)
    requires Initial(s)
    ensures var t := Step(Step(Step(s, Mutate(1)), Kick(1)), ListFails);
      var u := Step(Step(t, TakeWake), ListFails);
      Inv(t) && !Inv(u) && u.wake == 0 && u.loop == Waiting && 1 in u.unseen
  {
    var u := Step(Step(Step(Step(Step(s, Mutate(1)), Kick(1)), ListFails), TakeWake), ListFails);
    assert 1 in u.unseen * u.kicked;
  }

  /** Loop steps still needed before the next List. */
  function Distance(s: State): nat {
    match s.loop
    case AboutToList => 1
    case Waiting => 2
    case Reconciling => 3
  }

  /** The loop can take this step now. */
  predicate LoopMoves(s: State, e: Event) {
    || (e == Finish && s.loop == Reconciling)
    || ((e == List || e == ListFails) && s.loop == AboutToList)
    || (s.loop == Waiting && (e == Timer || (e == TakeWake && s.wake > 0)))
  }

  /** How many moves of the loop the run contains. */
  function Moves(s: State, es: seq<Event>): nat
    decreases |es|
  {
    if es == [] then 0 else (if LoopMoves(s, es[0]) then 1 else 0) + Moves(Step(s, es[0]), es[1..])
  }

  /** While an announced mutation is unread the loop always has a move that needs no timer. */
  lemma LoopCanMove(s: State)
    requires Inv(s) && s.unseen * s.kicked != {}
    ensures LoopMoves(s, Finish) || LoopMoves(s, List) || LoopMoves(s, TakeWake)
  {
  }

  /** How many Lists of the run fail. */
  function Failures(s: State, es: seq<Event>): nat
    decreases |es|
  {
    if es == [] then 0
    else (if es[0] == ListFails && s.loop == AboutToList then 1 else 0) + Failures(Step(s, es[0]), es[1..])
  }

  predicate NoRepeat(es: seq<Event>, id: nat) {
    forall i :: 0 <= i < |es| ==> es[i] != Mutate(id)
  }

  /** Any mutation is read within three moves of the loop and two more for each List that fails. */
  lemma {:induction false} ReadWithinThreeMoves(s: State, es: seq<Event>, id: nat)
    requires id in s.unseen && NoRepeat(es, id) && Moves(s, es) >= Distance(s) + 2 * Failures(s, es)
    ensures id !in Run(s, es).unseen
    decreases |es|
  {
    if es != [] {
      var next := Step(s, es[0]);
      if id in next.unseen {
        ReadWithinThreeMoves(next, es[1..], id);
      } else {
        StaysRead(next, es[1..], id);
      }
    }
  }

  lemma {:induction false} StaysRead(s: State, es: seq<Event>, id: nat)
    requires id !in s.unseen && NoRepeat(es, id)
    ensures id !in Run(s, es).unseen
    decreases |es|
  {
    if es != [] {
      assert es[0] != Mutate(id);
      StaysRead(Step(s, es[0]), es[1..], id);
    }
  }
}
