/** The fields of `Buffer` and the regions under its mutex, loops included. Every
    method carries out actions of the protocol in `Buffer`. */
module BufferRegions {
  import opened Prelude
  import opened Ordering
  import opened Buffer

  ghost predicate Traced(trace: seq<Action>, s: State) {
    Run(NEW_STATE, trace) && After(NEW_STATE, trace) == s
  }

  lemma Facts(trace: seq<Action>, s: State)
    requires Traced(trace, s)
    ensures Core(s)
  {
    RunKeeps(NEW_STATE, trace);
  }

  lemma MembersOneMore(keys: seq<Key>, i: nat)
    requires i < |keys|
    ensures Members(keys[..i + 1]) == Members(keys[..i]) + {keys[i]}
  {
    assert keys[..i + 1] == keys[..i] + [keys[i]];
  }

  /** The insertion loop of `Add`. */
  method AddLocked(pending: set<Key>, keys: seq<Key>) returns (all: set<Key>)
    ensures all == pending + Members(keys)
  {
    all := pending;
    var i := 0;
    while i < |keys|
      invariant 0 <= i <= |keys|
      invariant all == pending + Members(keys[..i])
    {
      all := all + {keys[i]};
      MembersOneMore(keys, i);
      i := i + 1;
    }
    assert keys[..i] == keys;
  }

  /** `takeLocked`: the deletion loop drops a key the first time it is named; what it
      found is then sorted, if there is an order. */
  method TakeLocked(pending: set<Key>, keys: seq<Key>, order: Order<Key>) returns (taken: seq<Key>, rest: set<Key>)
    requires Usable(order)
    ensures rest == pending - Members(keys) && Rearranges(taken, TakeKeys(pending, keys))
    ensures if order.None? then taken == TakeKeys(pending, keys) else Ordered(order.value, taken)
  {
    taken, rest := [], pending;
    var i := 0;
    while i < |keys|
      invariant 0 <= i <= |keys|
      invariant rest == pending - Members(keys[..i])
      invariant taken + TakeKeys(rest, keys[i..]) == TakeKeys(pending, keys)
    {
      assert keys[i..][0] == keys[i] && keys[i..][1..] == keys[i + 1..];
      if keys[i] in rest {
        rest := rest - {keys[i]};
        taken := taken + [keys[i]];
      }
      MembersOneMore(keys, i);
      i := i + 1;
    }
    assert keys[..i] == keys;
    ArrangedIsSorted(order, taken);
    taken := Arranged(order, taken);
  }

  /** The keys of a set in any order, as iterating over a map gives them. */
  method KeysOf(pending: set<Key>) returns (keys: seq<Key>)
    ensures multiset(keys) == multiset(pending)
  {
    keys := [];
    var rest := pending;
    while rest != {}
      invariant rest <= pending && multiset(keys) + multiset(rest) == multiset(pending)
      decreases |rest|
    {
      var k :| k in rest;
      keys := keys + [k];
      rest := rest - {k};
    }
  }

  /** `flushingAny` */
  method AnyFlushing(flushing: set<Key>, keys: seq<Key>) returns (any: bool)
    ensures any <==> exists k :: k in keys && k in flushing
  {
    any := false;
    var i := 0;
    while i < |keys| && !any
      invariant 0 <= i <= |keys|
      invariant any ==> exists k :: k in keys && k in flushing
      invariant !any ==> forall j :: 0 <= j < i ==> keys[j] !in flushing
    {
      any := keys[i] in flushing;
      i := i + 1;
    }
  }

  class Regions {
    var pending: set<Key>
    var flushing: set<Key>          // empty stands for nil: a flush carries at least one key
    var flushDone: Option<Chan>
    var closed: bool
    var created: nat
    var dropped: nat
    var wake: bool
    const maxPending: nat
    const order: Order<Key>
    ghost var s: State
    ghost var trace: seq<Action>

    ghost predicate Valid()
      reads this
    {
      && Traced(trace, s) && Usable(order)
      && pending == s.pending && flushDone == s.flushDone && closed == s.closed
      && created == s.created && dropped == s.dropped
      && (if flushing == {} then s.flushing.None? else s.flushing == Some(flushing))
    }

    constructor (maxPending: nat, order: Order<Key>)
      requires Usable(order)
      ensures Valid() && s == NEW_STATE && this.maxPending == maxPending && this.order == order
    {
      this.maxPending, this.order, wake := maxPending, order, false;
      pending, flushing, flushDone, closed, created, dropped := {}, {}, None, false, 0, 0;
      s, trace := NEW_STATE, [];
    }

    ghost method Act(a: Action)
      requires Traced(trace, s) && Enabled(s, a)
      modifies this`s, this`trace
      ensures Traced(trace, s) && s == Next(old(s), a)
    {
      RunExtends(NEW_STATE, trace, a);
      trace := trace + [a];
      s := Next(s, a);
    }

    /** Adding to a buffer that is full, or gets full, leaves a token for the flusher. */
    method Add(keys: seq<Key>)
      requires Valid()
      modifies this
      ensures Valid() && s == if keys == [] then old(s) else AddNext(old(s), keys)
      ensures closed == old(closed)
      ensures !closed ==>
                && pending == old(pending) + Members(keys) && dropped == old(dropped)
                && s.entered == old(s.entered) + multiset(Members(keys) - old(pending))
      ensures closed ==> pending == old(pending) && s.entered == old(s.entered) && dropped == old(dropped) + |keys|
      ensures wake <==> old(wake) || (keys != [] && !closed && |pending| >= maxPending)
    {
      if |keys| == 0 { return; }
      Act(Buffer.Add(keys));
      if closed {
        dropped := dropped + |keys|;
        return;
      }
      pending := AddLocked(pending, keys);
      if |pending| >= maxPending { wake := true; }
    }

    /** One round of the loop of `Take`: the keys taken, or the channel to wait on. */
    method TakeRound(ghost t: Tid, keys: seq<Key>) returns (taken: seq<Key>, wait: Option<Chan>)
      requires Valid() && t in s.takers && s.takers[t] == Taker(keys, Trying)
      modifies this
      ensures Valid() && s == TryNext(old(s), t, keys, taken) && wake == old(wake)
      ensures wait.Some? <==> old(FlushingAny(s, keys))
      ensures wait.None? ==>
                && pending == old(pending) - Members(keys) && Rearranges(taken, TakeKeys(old(pending), keys))
                && if order.None? then taken == TakeKeys(old(pending), keys) else Ordered(order.value, taken)
      ensures wait.Some? ==> taken == [] && pending == old(pending) && wait == old(flushDone)
    {
      Facts(trace, s);
      var any := AnyFlushing(flushing, keys);
      taken, wait := [], None;
      if any {
        wait := flushDone;
      } else {
        taken, pending := TakeLocked(pending, keys, order);
      }
      Act(OfTaker(t, Try(taken)));
    }

    /** `takeForFlush` by the flusher: the pending set becomes the one in flight, and
        its keys, each once and sorted if there is an order, go to the write. */
    method TakeForFlush() returns (keys: seq<Key>, done: Option<Chan>)
      requires Valid() && s.flusher.Idle?
      modifies this
      ensures Valid() && s == FlusherNext(old(s), FlusherBegin) && multiset(keys) == multiset(old(pending))
      ensures order.Some? ==> Ordered(order.value, keys)
      ensures old(pending) != {} ==> done.Some? && flushing == old(pending) && pending == {} && flushDone == done
                                     && s.flusher == Busy(Flush(old(pending), done.value, Ready))
      ensures old(pending) == {} ==> done.None? && s == old(s)
    {
      Act(OfFlusher(FlusherBegin));
      keys, done := [], None;
      if pending != {} {
        keys := KeysOf(pending);
        ArrangedIsSorted(order, keys);
        keys := Arranged(order, keys);
        flushing := pending;
        pending := {};
        done := Some(created);
        flushDone := done;
        created := created + 1;
      }
    }

    /** `finishFlush` by the flusher, once the write returned. */
    method FinishFlush()
      requires Valid() && s.flusher.Busy? && s.flusher.flush.phase.Writing?
      modifies this
      ensures Valid() && s.flusher.Idle? && flushing == {} && flushDone.None? && pending == old(pending)
      ensures Count(s.announced, old(s.flusher.flush.chan)) == 1
    {
      Facts(trace, s);
      Act(OfFlusher(FlusherGo));
      flushing := {};
      flushDone := None;
      Act(OfFlusher(FlusherGo));
    }
  }
}
