// The client's global event system: a table from event names to multicast
// delegates. A delegate is modelled as its invocation list, a null delegate
// as the empty list; combining or removing delegates of different types
// throws, as `Delegate.Combine` and `Delegate.Remove` do.

module Events {
  import opened Common

  /** The delegate type a handler was declared with: `Action`, or `Action<T>` for a named T. */
  datatype Signature = NoData | WithData(typeName: string)

  /** A subscribed handler, identified by its target and method (`id`) and its delegate type. */
  datatype Handler = Handler(id: nat, signature: Signature)

  type Table = map<string, seq<Handler>>

  /** A multicast delegate holds handlers of one delegate type. */
  predicate OneType(handlers: seq<Handler>)
  {
    forall i :: 0 <= i < |handlers| ==> handlers[i].signature == handlers[0].signature
  }

  predicate WellTyped(table: Table)
  {
    forall name :: name in table ==> OneType(table[name])
  }

  /** The invocation list of an optional (possibly null) handler. */
  function Listed(handler: Option<Handler>): (r: seq<Handler>)
    ensures handler.None? ==> r == []
    ensures handler.Some? ==> r == [handler.value]
  {
    if handler.Some? then [handler.value] else []
  }

  /** `Delegate.Combine(a, b)` and `Delegate.Remove(a, b)` throw when both are non-null and of different types. */
  predicate TypesClash(existing: seq<Handler>, handler: Option<Handler>)
  {
    |existing| > 0 && handler.Some? && handler.value.signature != existing[0].signature
  }

  // ---------------------------------------------------------------------------
  // Subscribe
  // ---------------------------------------------------------------------------

  /**
   * Subscribe(name, handler): the handler goes at the end of the name's
   * invocation list; an absent name gets the handler alone (a null handler
   * stores a null delegate). None when `Delegate.Combine` throws.
   */
  function SubscribeOf(table: Table, name: string, handler: Option<Handler>): (r: Option<Table>)
    ensures r.None? <==> name in table && TypesClash(table[name], handler)
    ensures r.Some? ==> r.value.Keys == table.Keys + {name}
    ensures r.Some? ==> r.value[name] == (if name in table then table[name] else []) + Listed(handler)
    ensures r.Some? ==> forall other :: other in table && other != name ==> r.value[other] == table[other]
  {
    if name in table then
      if TypesClash(table[name], handler) then None
      else Some(table[name := table[name] + Listed(handler)])
    else Some(table[name := Listed(handler)])
  }

  lemma SubscribeKeepsTypes(table: Table, name: string, handler: Option<Handler>)
    requires WellTyped(table)
    ensures SubscribeOf(table, name, handler).Some? ==> WellTyped(SubscribeOf(table, name, handler).value)
  {
    var r := SubscribeOf(table, name, handler);
    if r.Some? {
      forall n | n in r.value
        ensures OneType(r.value[n])
      {
        if n == name && name in table && |table[name]| > 0 {
          assert r.value[n][0] == table[name][0];
        }
      }
    }
  }

  // ---------------------------------------------------------------------------
  // Unsubscribe
  // ---------------------------------------------------------------------------

  /** Index of the last occurrence of `h`, or -1. */
  function LastIndex(handlers: seq<Handler>, h: Handler): (k: int)
    ensures -1 <= k < |handlers|
    ensures k >= 0 ==> handlers[k] == h
    ensures forall i :: k < i < |handlers| ==> handlers[i] != h
  {
    if |handlers| == 0 then -1
    else if handlers[|handlers| - 1] == h then |handlers| - 1
    else LastIndex(handlers[..|handlers| - 1], h)
  }

  /** `Delegate.Remove(source, value)` for a single handler: its last occurrence goes; a null value removes nothing. */
  function RemoveLast(handlers: seq<Handler>, handler: Option<Handler>): (r: seq<Handler>)
    ensures handler.None? || handler.value !in handlers ==> r == handlers
    ensures handler.Some? && handler.value in handlers ==>
              var k := LastIndex(handlers, handler.value);
              0 <= k && r == handlers[..k] + handlers[k + 1..]
  {
    if handler.None? then handlers
    else
      var k := LastIndex(handlers, handler.value);
      if k < 0 then handlers else handlers[..k] + handlers[k + 1..]
  }

  /**
   * Unsubscribe(name, handler): the handler's last occurrence is removed and
   * a name left with a null delegate is deleted; an absent name changes
   * nothing. None when `Delegate.Remove` throws.
   */
  function UnsubscribeOf(table: Table, name: string, handler: Option<Handler>): (r: Option<Table>)
    ensures r.None? <==> name in table && TypesClash(table[name], handler)
    ensures name !in table ==> r == Some(table)
    ensures r.Some? ==> name !in r.value || |r.value[name]| > 0
    ensures r.Some? && name in table ==>
              var rest := RemoveLast(table[name], handler);
              (rest == [] ==> r.value == table - {name}) && (rest != [] ==> r.value == table[name := rest])
  {
    if name !in table then Some(table)
    else if TypesClash(table[name], handler) then None
    else
      var rest := RemoveLast(table[name], handler);
      if rest == [] then Some(table - {name}) else Some(table[name := rest])
  }

  /** Unsubscribing touches only its own name. */
  lemma UnsubscribeKeepsOthers(table: Table, name: string, handler: Option<Handler>, other: string)
    requires other != name
    ensures UnsubscribeOf(table, name, handler).Some? ==>
              (other in UnsubscribeOf(table, name, handler).value <==> other in table)
              && (other in table ==> UnsubscribeOf(table, name, handler).value[other] == table[other])
  {
  }

  /** A handler that is not subscribed under the name leaves the table as it is. */
  lemma UnsubscribeAbsent(table: Table, name: string, handler: Handler)
    requires name in table && |table[name]| > 0 && handler !in table[name]
    requires !TypesClash(table[name], Some(handler))
    ensures UnsubscribeOf(table, name, Some(handler)) == Some(table)
  {
    assert table[name := table[name]] == table;
  }

  /** Subscribing a handler and unsubscribing it again restores the table. */
  lemma SubscribeUnsubscribe(table: Table, name: string, handler: Handler)
    requires name !in table || |table[name]| > 0
    requires SubscribeOf(table, name, Some(handler)).Some?
    ensures UnsubscribeOf(SubscribeOf(table, name, Some(handler)).value, name, Some(handler)) == Some(table)
  {
    var before := if name in table then table[name] else [];
    var t := SubscribeOf(table, name, Some(handler)).value;
    var l := before + [handler];
    assert t[name] == l;
    assert LastIndex(l, handler) == |before|;
    assert l[..|before|] + l[|before| + 1..] == before;
    if name in table {
      assert !TypesClash(t[name], Some(handler)) by {
        assert t[name][0] == table[name][0];
      }
      assert t[name := before] == table;
    } else {
      assert t - {name} == table;
    }
  }

  // ---------------------------------------------------------------------------
  // Publish and HasSubscribers
  // ---------------------------------------------------------------------------

  /**
   * Whether `eventDelegate as Action<T>` succeeds for a delegate stored with
   * type `stored` when `requested` is asked for. The same type always
   * succeeds. Action<in T> is contravariant, so a stored Action<U> also
   * serves Publish<T> when T converts to U by a reference conversion, for
   * example Action<object> for Publish<string>. `refConvertible(t, u)` is
   * that conversion between type names, and it is false whenever t is a
   * value type. The type hierarchy behind it is a parameter of the model.
   */
  predicate CastSucceeds(stored: Signature, requested: Signature, refConvertible: (string, string) -> bool)
  {
    stored == requested
    || (stored.WithData? && requested.WithData? && refConvertible(requested.typeName, stored.typeName))
  }

  /**
   * The handlers Publish(name) invokes, in order. `eventDelegate as Action<T>`
   * is null for an unknown name, a null delegate or a delegate the cast
   * refuses, and then nothing is invoked.
   */
  function Invoked(table: Table, name: string, signature: Signature, refConvertible: (string, string) -> bool): (r: seq<Handler>)
    ensures r == [] || (name in table && r == table[name])
    ensures r != [] <==>
              name in table && |table[name]| > 0 && CastSucceeds(table[name][0].signature, signature, refConvertible)
  {
    if name in table && |table[name]| > 0 && CastSucceeds(table[name][0].signature, signature, refConvertible)
    then table[name] else []
  }

  /**
   * By contravariance, handlers subscribed as Action<object> are invoked by
   * Publish<string> once string converts to object.
   */
  lemma PublishContravariant(table: Table, name: string, refConvertible: (string, string) -> bool)
    requires name in table && |table[name]| > 0 && table[name][0].signature == WithData("object")
    requires refConvertible("string", "object")
    ensures Invoked(table, name, WithData("string"), refConvertible) == table[name]
  {
  }

  /** Publish invokes the handlers in the order they subscribed: a new subscriber is invoked last. */
  lemma PublishInSubscriptionOrder(table: Table, name: string, handler: Handler, refConvertible: (string, string) -> bool)
    requires WellTyped(table)
    requires SubscribeOf(table, name, Some(handler)).Some?
    ensures Invoked(SubscribeOf(table, name, Some(handler)).value, name, handler.signature, refConvertible)
            == Invoked(table, name, handler.signature, refConvertible) + [handler]
  {
    var t := SubscribeOf(table, name, Some(handler)).value;
    if name in table && |table[name]| > 0 {
      assert t[name][0] == table[name][0];
    }
  }

  /** HasSubscribers: the name holds a non-null delegate. */
  function HasSubscribers(table: Table, name: string): (r: bool)
    ensures r <==> name in table && table[name] != []
  {
    name in table && |table[name]| > 0
  }

  /** After a successful Unsubscribe the name has subscribers exactly when it still holds a handler. */
  lemma UnsubscribeLeavesNoEmptyEntry(table: Table, name: string, handler: Option<Handler>)
    requires UnsubscribeOf(table, name, handler).Some?
    ensures HasSubscribers(UnsubscribeOf(table, name, handler).value, name) <==> name in UnsubscribeOf(table, name, handler).value
  {
  }

  // ---------------------------------------------------------------------------
  // The static table
  // ---------------------------------------------------------------------------

  /** The static `_eventTable`. A call that throws leaves it as it was and reports false. */
  class EventSystem {
    var table: Table

    constructor ()
      ensures table == map[]
    {
      table := map[];
    }

    method Subscribe(name: string, handler: Option<Handler>) returns (ok: bool)
      modifies this
      ensures ok <==> SubscribeOf(old(table), name, handler).Some?
      ensures table == if ok then SubscribeOf(old(table), name, handler).value else old(table)
    {
      if name in table {
        if TypesClash(table[name], handler) {
          return false;
        }
        table := table[name := table[name] + Listed(handler)];
      } else {
        table := table[name := Listed(handler)];
      }
      return true;
    }

    method Unsubscribe(name: string, handler: Option<Handler>) returns (ok: bool)
      modifies this
      ensures ok <==> UnsubscribeOf(old(table), name, handler).Some?
      ensures table == if ok then UnsubscribeOf(old(table), name, handler).value else old(table)
    {
      if name in table {
        if TypesClash(table[name], handler) {
          return false;
        }
        table := table[name := RemoveLast(table[name], handler)];
        if table[name] == [] {
          table := table - {name};
        }
      }
      return true;
    }

    /** Publish(name) with a delegate type: the handlers it invokes. */
    method Publish(name: string, signature: Signature, refConvertible: (string, string) -> bool) returns (invoked: seq<Handler>)
      ensures invoked == Invoked(table, name, signature, refConvertible)
    {
      invoked := [];
      if name in table {
        var eventDelegate := table[name];
        if |eventDelegate| > 0 && CastSucceeds(eventDelegate[0].signature, signature, refConvertible) {
          invoked := eventDelegate;
        }
      }
    }

    method ClearAll()
      modifies this
      ensures table == map[]
      ensures forall name :: !HasSubscribers(table, name)
    {
      table := map[];
    }
  }
}
