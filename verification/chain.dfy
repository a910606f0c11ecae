/** The chain of trailing commits: a commit pass may leave data that is
    committed again, and so on. The chain is followed for at most `fuel`
    nested commits; `settled` says whether it ended within that bound. */
module Chains {

  /** What one pass leaves: the store after it, what it did, and the data it
      commits next. */
  datatype Stage<S, D, E> = Stage(store: S, events: seq<E>, next: D)

  /** The store after a chain of commits, everything they did in order, and
      whether the chain ended within the fuel. */
  datatype Outcome<S, E> = Outcome(store: S, events: seq<E>, settled: bool)

  /** What happened first, followed by the outcome of a nested commit. */
  function After<S, E>(events: seq<E>, rest: Outcome<S, E>): (r: Outcome<S, E>)
    ensures r.store == rest.store && r.settled == rest.settled
    ensures |r.events| == |events| + |rest.events|
    ensures r.events[..|events|] == events && r.events[|events|..] == rest.events
  {
    Outcome(rest.store, events + rest.events, rest.settled)
  }

  /** Commit `data` to `store`: nothing happens when the data is `idle`
      (it has no keys); otherwise one pass runs, and what it leaves is
      committed in turn while fuel remains. */
  function Chain<S, D, E>(pass: (S, D) -> Stage<S, D, E>, idle: D -> bool, store: S, data: D, fuel: nat)
    : Outcome<S, E>
    decreases fuel
  {
    if idle(data) then Outcome(store, [], true)
    else
      var st := pass(store, data);
      if fuel == 0 then Outcome(st.store, st.events, idle(st.next))
      else After(st.events, Chain(pass, idle, st.store, st.next, fuel - 1))
  }

  /** A chain that ended within the fuel ends the same way with more fuel:
      the bound only cuts chains that would go on. */
  lemma {:induction false} MoreFuel<S, D, E>(pass: (S, D) -> Stage<S, D, E>, idle: D -> bool, store: S, data: D,
                                             fuel: nat)
    requires Chain(pass, idle, store, data, fuel).settled
    ensures Chain(pass, idle, store, data, fuel + 1) == Chain(pass, idle, store, data, fuel)
    decreases fuel
  {
    if !idle(data) {
      var st := pass(store, data);
      if fuel == 0 {
        assert st.events + [] == st.events;
      } else {
        MoreFuel(pass, idle, st.store, st.next, fuel - 1);
      }
    }
  }

  /** Settling is monotone in the fuel: a chain that ends within `fuel`
      nested commits ends within any larger bound, with the same outcome. */
  lemma {:induction false} EnoughFuel<S, D, E>(pass: (S, D) -> Stage<S, D, E>, idle: D -> bool, store: S, data: D,
                                               fuel: nat, more: nat)
    requires Chain(pass, idle, store, data, fuel).settled && fuel <= more
    ensures Chain(pass, idle, store, data, more) == Chain(pass, idle, store, data, fuel)
    decreases more - fuel
  {
    if fuel < more {
      MoreFuel(pass, idle, store, data, fuel);
      EnoughFuel(pass, idle, store, data, fuel + 1, more);
    }
  }
}
