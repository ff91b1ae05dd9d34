// The state engine: an application-wide key/value store whose values are
// typed at run time, with subscribers per key that are told of every change.
// A subscriber's callback is not modelled as code: notifying it becomes a
// `Delivery` record of what the callback receives.

module StateEngines {
  import opened Common
  import opened Text

  /** The run-time types a value can be read back as. */
  datatype Ty = IntType | DecimalType | BoolType | StringType

  datatype Value = IntValue(i: int) | DecimalValue(d: real) | BoolValue(b: bool) | StringValue(s: string)

  function TypeOf(v: Value): Ty {
    match v
    case IntValue(_) => IntType
    case DecimalValue(_) => DecimalType
    case BoolValue(_) => BoolType
    case StringValue(_) => StringType
  }

  /** A value type has no null: its `default` is its zero. */
  predicate IsValueType(t: Ty) {
    t != StringType
  }

  /** `default(T)`; `None` is null. */
  function Default(t: Ty): (r: Option<Value>)
    ensures IsValueType(t) <==> r.Some?
    ensures r.Some? ==> TypeOf(r.value) == t
  {
    match t
    case IntType => Some(IntValue(0))
    case DecimalType => Some(DecimalValue(0.0))
    case BoolType => Some(BoolValue(false))
    case StringType => None
  }

  /** `v is T typed ? typed : default`: a stored object read as type `t`. */
  function Typed(v: Option<Value>, t: Ty): (r: Option<Value>)
    ensures v.Some? && TypeOf(v.value) == t ==> r == v
    ensures !(v.Some? && TypeOf(v.value) == t) ==> r == Default(t)
  {
    if v.Some? && TypeOf(v.value) == t then v else Default(t)
  }

  /** A value the C# type system lets a `T` variable hold. */
  predicate Fits(v: Option<Value>, t: Ty) {
    if v.Some? then TypeOf(v.value) == t else !IsValueType(t)
  }

  // ---------------------------------------------------------------------------
  // Subscribers
  // ---------------------------------------------------------------------------

  /** A subscription's wrapper: the type its callback takes, and whether the
    * callback takes the old value too. */
  datatype Subscriber = Subscriber(id: nat, ty: Ty, withOld: bool)

  /** What one callback receives. */
  datatype Delivery =
    | NewOnly(subscriber: nat, newValue: Option<Value>)
    | OldAndNew(subscriber: nat, oldValue: Option<Value>, newValue: Option<Value>)

  /** The wrapper of `Subscribe`: each value is read as the subscriber's type. */
  function Deliver(s: Subscriber, oldValue: Option<Value>, newValue: Option<Value>): (d: Delivery)
    ensures d.subscriber == s.id
    ensures d.newValue == Typed(newValue, s.ty)
    ensures d.OldAndNew? <==> s.withOld
    ensures d.OldAndNew? ==> d.oldValue == Typed(oldValue, s.ty)
  {
    if s.withOld then OldAndNew(s.id, Typed(oldValue, s.ty), Typed(newValue, s.ty))
    else NewOnly(s.id, Typed(newValue, s.ty))
  }

  function Deliveries(subs: seq<Subscriber>, oldValue: Option<Value>, newValue: Option<Value>): (r: seq<Delivery>)
    ensures |r| == |subs|
    ensures forall i :: 0 <= i < |subs| ==> r[i] == Deliver(subs[i], oldValue, newValue)
  {
    seq(|subs|, i requires 0 <= i < |subs| => Deliver(subs[i], oldValue, newValue))
  }

  /** `NotifySubscribers`: every subscriber of the key, in subscription order. */
  method Notify(subscribers: map<string, seq<Subscriber>>, key: string, oldValue: Option<Value>, newValue: Option<Value>)
    returns (r: seq<Delivery>)
    ensures key !in subscribers ==> r == []
    ensures key in subscribers ==> r == Deliveries(subscribers[key], oldValue, newValue)
  {
    if key !in subscribers {
      return [];
    }
    var subs := subscribers[key];
    r := [];
    for i := 0 to |subs|
      invariant r == Deliveries(subs[..i], oldValue, newValue)
    {
      r := r + [Deliver(subs[i], oldValue, newValue)];
    }
    assert subs[..|subs|] == subs;
  }

  /** `list.Remove(wrapper)`: the first subscriber with that id. */
  function RemoveSubscriber(subs: seq<Subscriber>, id: nat): (r: seq<Subscriber>)
    ensures forall s :: s in r ==> s in subs
    ensures (forall i :: 0 <= i < |subs| ==> subs[i].id != id) ==> r == subs
    ensures (exists i :: 0 <= i < |subs| && subs[i].id == id) ==> |r| == |subs| - 1
    ensures DistinctSubscribers(subs) ==> DistinctSubscribers(r)
  {
    if subs == [] then []
    else if subs[0].id == id then subs[1..]
    else
      assert forall i :: 1 <= i < |subs| ==> subs[i] == subs[1..][i - 1];
      var rest := RemoveSubscriber(subs[1..], id);
      assert DistinctSubscribers(subs) ==> forall s :: s in rest ==> s.id != subs[0].id by {
        if DistinctSubscribers(subs) {
          forall s | s in rest ensures s.id != subs[0].id {
            var k :| 0 <= k < |subs[1..]| && subs[1..][k] == s;
          }
        }
      }
      [subs[0]] + rest
  }

  predicate DistinctSubscribers(subs: seq<Subscriber>) {
    forall i, j :: 0 <= i < j < |subs| ==> subs[i].id != subs[j].id
  }

  lemma RemoveSubscriberDistinct(subs: seq<Subscriber>, id: nat)
    requires DistinctSubscribers(subs)
    ensures forall s :: s in RemoveSubscriber(subs, id) ==> s.id != id
  {
    if subs != [] && subs[0].id != id {
      RemoveSubscriberDistinct(subs[1..], id);
    } else if subs != [] {
      forall s | s in subs[1..] ensures s.id != id {
        var k :| 0 <= k < |subs[1..]| && subs[1..][k] == s;
        assert subs[k + 1] == s;
      }
    }
  }

  // ---------------------------------------------------------------------------
  // The store
  // ---------------------------------------------------------------------------

  /** `StateEngine`. A stored `None` is a null that was set. */
  class StateEngine {
    var state: map<string, Option<Value>>
    var subscribers: map<string, seq<Subscriber>>
    /** The identity the next subscription's wrapper gets. */
    var nextId: nat

    predicate Valid()
      reads this
    {
      forall key :: key in subscribers ==>
        (forall i :: 0 <= i < |subscribers[key]| ==> subscribers[key][i].id < nextId)
        && DistinctSubscribers(subscribers[key])
    }

    constructor()
      ensures Valid() && state == map[] && subscribers == map[] && nextId == 0
    {
      state := map[];
      subscribers := map[];
      nextId := 0;
    }

    /** `Get<T>`: the stored value when it has type `t`, otherwise `default`. */
    function Get(key: string, t: Ty): (r: Option<Value>)
      reads this
      ensures IsBlank(key) || key !in state ==> r == Default(t)
      ensures !IsBlank(key) && key in state ==> r == Typed(state[key], t)
      ensures Fits(r, t)
    {
      if IsBlank(key) || key !in state then Default(t) else Typed(state[key], t)
    }

    /** `Has`. */
    function Has(key: string): (r: bool)
      reads this
      ensures r <==> !IsBlank(key) && key in state
    {
      !IsBlank(key) && key in state
    }

    /** `GetOrDefault<T>`: `Get(key) ?? defaultValue`. */
    function GetOrDefault(key: string, t: Ty, defaultValue: Option<Value>): (r: Option<Value>)
      reads this
      requires Fits(defaultValue, t)
      ensures Get(key, t).Some? ==> r == Get(key, t)
      ensures Get(key, t).None? ==> r == defaultValue
      ensures IsValueType(t) ==> r == Get(key, t)
    {
      if Get(key, t).Some? then Get(key, t) else defaultValue
    }

    /** `GetAllKeys`. */
    function AllKeys(): (r: set<string>)
      reads this
      ensures forall key :: key in r <==> key in state
    {
      state.Keys
    }

    /** `Set<T>`: a blank key is ignored; otherwise the value is stored and the
      * key's subscribers get the value it replaces (read as `t`) and the new one. */
    method Set(key: string, t: Ty, value: Option<Value>) returns (notified: seq<Delivery>)
      requires Valid() && Fits(value, t)
      modifies this
      ensures Valid() && subscribers == old(subscribers) && nextId == old(nextId)
      ensures IsBlank(key) ==> state == old(state) && notified == []
      ensures !IsBlank(key) ==> state == old(state)[key := value] && Has(key) && Get(key, t) == value
      ensures !IsBlank(key) && key in subscribers ==>
        notified == Deliveries(subscribers[key], old(Get(key, t)), value)
      ensures !IsBlank(key) && key !in subscribers ==> notified == []
    {
      if IsBlank(key) {
        return [];
      }
      var oldValue := Get(key, t);
      state := state[key := value];
      notified := Notify(subscribers, key, oldValue, value);
    }

    /** `Remove`: a present key is removed and its subscribers get the removed
      * value and null. */
    method Remove(key: string) returns (notified: seq<Delivery>)
      requires Valid()
      modifies this
      ensures Valid() && subscribers == old(subscribers) && nextId == old(nextId)
      ensures !Has(key)
      ensures IsBlank(key) || key !in old(state) ==> state == old(state) && notified == []
      ensures !IsBlank(key) && key in old(state) ==>
        && state == old(state) - {key}
        && notified == (if key in subscribers then Deliveries(subscribers[key], old(state)[key], None) else [])
    {
      if IsBlank(key) || key !in state {
        return [];
      }
      var oldValue := state[key];
      state := state - {key};
      notified := Notify(subscribers, key, oldValue, None);
    }

    /** `Clear`: the values go, the subscriptions stay. */
    method Clear()
      requires Valid()
      modifies this
      ensures Valid() && state == map[] && subscribers == old(subscribers) && nextId == old(nextId)
    {
      state := map[];
    }

    /** `Subscribe`: a blank key gets a handle that does nothing; otherwise a
      * new wrapper goes last in the key's list. */
    method Subscribe(key: string, t: Ty, withOld: bool) returns (h: Subscription)
      requires Valid()
      modifies this
      ensures Valid() && state == old(state) && fresh(h)
      ensures h.engine == this && h.key == key && !h.disposed
      ensures IsBlank(key) ==> h.empty && subscribers == old(subscribers) && nextId == old(nextId)
      ensures !IsBlank(key) ==>
        && !h.empty && h.id == old(nextId) && nextId == old(nextId) + 1
        && subscribers == old(subscribers)[key := (if key in old(subscribers) then old(subscribers)[key] else []) +
                                                   [Subscriber(old(nextId), t, withOld)]]
    {
      if IsBlank(key) {
        h := new Subscription(this, key, 0, true);
        return;
      }
      var list := if key in subscribers then subscribers[key] else [];
      subscribers := subscribers[key := list + [Subscriber(nextId, t, withOld)]];
      h := new Subscription(this, key, nextId, false);
      nextId := nextId + 1;
    }

    /** The action a subscription's `Dispose` runs. */
    method Unsubscribe(key: string, id: nat)
      requires Valid()
      modifies this
      ensures Valid() && state == old(state) && nextId == old(nextId)
      ensures key !in old(subscribers) ==> subscribers == old(subscribers)
      ensures key in old(subscribers) ==>
        && subscribers == old(subscribers)[key := RemoveSubscriber(old(subscribers)[key], id)]
        && forall s :: s in subscribers[key] ==> s.id != id
    {
      if key in subscribers {
        RemoveSubscriberDistinct(subscribers[key], id);
        var rest := RemoveSubscriber(subscribers[key], id);
        assert forall i :: 0 <= i < |rest| ==> rest[i] in subscribers[key];
        subscribers := subscribers[key := rest];
      }
    }
  }

  /** `SubscriptionDisposable`, or `EmptyDisposable` when `empty`. */
  class Subscription {
    const engine: StateEngine
    const key: string
    const id: nat
    const empty: bool
    var disposed: bool

    constructor(engine: StateEngine, key: string, id: nat, empty: bool)
      ensures this.engine == engine && this.key == key && this.id == id && this.empty == empty && !disposed
    {
      this.engine := engine;
      this.key := key;
      this.id := id;
      this.empty := empty;
      disposed := false;
    }

    /** `Dispose`: the first call removes the wrapper; later calls do nothing. */
    method Dispose()
      requires engine.Valid()
      modifies this, engine
      ensures engine.Valid() && engine.state == old(engine.state)
      ensures (empty || old(disposed)) ==> engine.subscribers == old(engine.subscribers) && disposed == old(disposed)
      ensures !empty && !old(disposed) ==>
        && disposed
        && (key in old(engine.subscribers) ==>
              engine.subscribers == old(engine.subscribers)[key := RemoveSubscriber(old(engine.subscribers)[key], id)])
        && (key !in old(engine.subscribers) ==> engine.subscribers == old(engine.subscribers))
    {
      if empty || disposed {
        return;
      }
      engine.Unsubscribe(key, id);
      disposed := true;
    }
  }
}
