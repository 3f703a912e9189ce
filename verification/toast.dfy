/**
 * The toast store (gui/src/components/common/Toast.tsx): a `Map` from id to
 * toast, kept in insertion order as JavaScript maps are, and a set of
 * listeners told of every change. The random id is a parameter.
 */
module Toasts {
  import opened Wrappers
  import opened Lists

  datatype ToastType = Success | Error | Info

  datatype Toast = Toast(id: string, kind: ToastType, title: string, message: Option<string>, duration: Option<int>)

  /** A listener, by identity. */
  type ListenerId = nat

  /** Toast ids are distinct, as map keys are. */
  predicate DistinctIds(toasts: seq<Toast>) {
    forall i, j | 0 <= i < j < |toasts| :: toasts[i].id != toasts[j].id
  }

  /** The position of the toast with that id. */
  function IndexOf(toasts: seq<Toast>, id: string): (r: Option<nat>)
    ensures r.Some? ==> r.value < |toasts| && toasts[r.value].id == id
    ensures r.None? ==> forall i | 0 <= i < |toasts| :: toasts[i].id != id
  {
    if toasts == [] then None
    else if toasts[0].id == id then Some(0)
    else match IndexOf(toasts[1..], id)
      case None => None
      case Some(k) => Some(k + 1)
  }

  /** `Map.set`: a new key goes last; an existing key keeps its place and takes the new value. */
  function MapSet(toasts: seq<Toast>, t: Toast): (r: seq<Toast>)
    ensures IndexOf(toasts, t.id).None? ==> r == toasts + [t]
    ensures IndexOf(toasts, t.id).Some? ==> r == toasts[IndexOf(toasts, t.id).value := t]
  {
    match IndexOf(toasts, t.id)
    case None => toasts + [t]
    case Some(i) => toasts[i := t]
  }

  /** After `Map.set` the id holds the new toast, every other id is untouched, and ids stay distinct. */
  lemma MapSetStores(toasts: seq<Toast>, t: Toast)
    requires DistinctIds(toasts)
    ensures var r := MapSet(toasts, t);
      DistinctIds(r) && t in r
      && (forall u | u in r && u.id != t.id :: u in toasts)
      && (forall u | u in toasts && u.id != t.id :: u in r)
      && |r| == |toasts| + (if IndexOf(toasts, t.id).None? then 1 else 0)
  {
    var r := MapSet(toasts, t);
    match IndexOf(toasts, t.id)
    case None =>
      assert r[|toasts|] == t;
      forall u | u in toasts && u.id != t.id
        ensures u in r
      {
        var k :| 0 <= k < |toasts| && toasts[k] == u;
        assert r[k] == u;
      }
    case Some(i) =>
      assert r[i] == t;
      forall u | u in toasts && u.id != t.id
        ensures u in r
      {
        var k :| 0 <= k < |toasts| && toasts[k] == u;
        assert r[k] == u;
      }
  }

  /** The `Map.delete` filter condition. */
  function OtherId(id: string): Toast -> bool {
    (t: Toast) => t.id != id
  }

  /** `Map.delete`: exactly the entry with that id goes; the rest keep their order. */
  function MapDelete(toasts: seq<Toast>, id: string): (r: seq<Toast>)
    ensures forall u | u in r :: u in toasts && u.id != id
    ensures forall u | u in toasts && u.id != id :: u in r
    ensures forall u | u in toasts && u.id != id :: multiset(r)[u] == multiset(toasts)[u]
    ensures IsSublist(r, toasts)
  {
    FilterIsSublist(toasts, OtherId(id));
    FilterCounts(toasts, OtherId(id));
    Filter(toasts, OtherId(id))
  }

  /** Deleting a toast just shown gives back the toasts from before, when its id was new. */
  lemma {:induction false} DeleteUndoesNewSet(toasts: seq<Toast>, t: Toast)
    requires IndexOf(toasts, t.id).None?
    ensures MapDelete(MapSet(toasts, t), t.id) == toasts
  {
    assert MapSet(toasts, t) == toasts + [t];
    FilterAppend(toasts, t, OtherId(t.id));
    FilterAll(toasts, OtherId(t.id));
  }

  /**
   * `ToastManager`: the toasts and the listeners. `notified` records, for
   * each change, the listeners called, in order.
   */
  class ToastManager {
    var toasts: seq<Toast>
    var listeners: seq<ListenerId>
    var notified: seq<seq<ListenerId>>

    predicate Valid()
      reads this
    {
      DistinctIds(toasts)
    }

    constructor()
      ensures Valid() && toasts == [] && listeners == [] && notified == []
    {
      toasts := [];
      listeners := [];
      notified := [];
    }

    /** `notifyListeners`: every listener, in order. */
    method NotifyListeners()
      modifies this
      ensures notified == old(notified) + [listeners]
      ensures toasts == old(toasts) && listeners == old(listeners)
    {
      notified := notified + [listeners];
    }

    /** `show`: store the toast under the new id, tell the listeners, and return the id. */
    method Show(freshId: string, kind: ToastType, title: string, message: Option<string>, duration: Option<int>)
      returns (id: string)
      requires Valid()
      modifies this
      ensures Valid()
      ensures id == freshId
      ensures toasts == MapSet(old(toasts), Toast(freshId, kind, title, message, duration))
      ensures listeners == old(listeners) && notified == old(notified) + [listeners]
    {
      id := freshId;
      MapSetStores(toasts, Toast(id, kind, title, message, duration));
      toasts := MapSet(toasts, Toast(id, kind, title, message, duration));
      NotifyListeners();
    }

    /** `remove` (also what a toast's own `onClose` calls): drop that id and tell the listeners. */
    method Remove(id: string)
      requires Valid()
      modifies this
      ensures Valid()
      ensures toasts == MapDelete(old(toasts), id)
      ensures listeners == old(listeners) && notified == old(notified) + [listeners]
    {
      FilterKeepsDistinct(toasts, OtherId(id));
      toasts := MapDelete(toasts, id);
      NotifyListeners();
    }

    /** `success`. */
    method ShowSuccess(freshId: string, title: string, message: Option<string>, duration: Option<int>) returns (id: string)
      requires Valid()
      modifies this
      ensures Valid() && id == freshId
      ensures toasts == MapSet(old(toasts), Toast(freshId, Success, title, message, duration))
      ensures listeners == old(listeners) && notified == old(notified) + [listeners]
    {
      id := Show(freshId, Success, title, message, duration);
    }

    /** `error`. */
    method ShowError(freshId: string, title: string, message: Option<string>, duration: Option<int>) returns (id: string)
      requires Valid()
      modifies this
      ensures Valid() && id == freshId
      ensures toasts == MapSet(old(toasts), Toast(freshId, Error, title, message, duration))
      ensures listeners == old(listeners) && notified == old(notified) + [listeners]
    {
      id := Show(freshId, Error, title, message, duration);
    }

    /** `info`. */
    method ShowInfo(freshId: string, title: string, message: Option<string>, duration: Option<int>) returns (id: string)
      requires Valid()
      modifies this
      ensures Valid() && id == freshId
      ensures toasts == MapSet(old(toasts), Toast(freshId, Info, title, message, duration))
      ensures listeners == old(listeners) && notified == old(notified) + [listeners]
    {
      id := Show(freshId, Info, title, message, duration);
    }

    /** `getToasts`: the stored toasts, in insertion order. */
    method GetToasts() returns (r: seq<Toast>)
      ensures r == toasts
    {
      r := toasts;
    }

    /** `subscribe`: add the listener once. */
    method Subscribe(listener: ListenerId)
      modifies this
      ensures listener in listeners
      ensures listeners == if listener in old(listeners) then old(listeners) else old(listeners) + [listener]
      ensures toasts == old(toasts) && notified == old(notified)
    {
      if listener !in listeners {
        listeners := listeners + [listener];
      }
    }

    /** The function `subscribe` returns: remove that listener. */
    method Unsubscribe(listener: ListenerId)
      modifies this
      ensures listeners == Filter(old(listeners), (l: ListenerId) => l != listener)
      ensures listener !in listeners
      ensures toasts == old(toasts) && notified == old(notified)
    {
      listeners := Filter(listeners, (l: ListenerId) => l != listener);
    }
  }

  /** Dropping toasts keeps ids distinct. */
  lemma {:induction false} FilterKeepsDistinct(toasts: seq<Toast>, keep: Toast -> bool)
    requires DistinctIds(toasts)
    ensures DistinctIds(Filter(toasts, keep))
    decreases |toasts|
  {
    if toasts != [] {
      var tail := toasts[1..];
      assert DistinctIds(tail) by {
        forall i, j | 0 <= i < j < |tail|
          ensures tail[i].id != tail[j].id
        {
          assert tail[i] == toasts[i + 1] && tail[j] == toasts[j + 1];
        }
      }
      FilterKeepsDistinct(tail, keep);
      var rest := Filter(tail, keep);
      assert Filter(toasts, keep) == (if keep(toasts[0]) then [toasts[0]] else []) + rest;
      if keep(toasts[0]) {
        forall u | u in rest
          ensures u.id != toasts[0].id
        {
          var k :| 0 <= k < |tail| && tail[k] == u;
          assert tail[k] == toasts[k + 1];
        }
        DistinctCons(toasts[0], rest);
      }
    }
  }

  /** A toast whose id no other has can go in front. */
  lemma DistinctCons(t: Toast, rest: seq<Toast>)
    requires DistinctIds(rest)
    requires forall u | u in rest :: u.id != t.id
    ensures DistinctIds([t] + rest)
  {
    var r := [t] + rest;
    forall i, j | 0 <= i < j < |r|
      ensures r[i].id != r[j].id
    {
      assert r[j] == rest[j - 1];
      if i > 0 {
        assert r[i] == rest[i - 1];
      }
    }
  }

  /** `getInstance`: the one shared manager, created on first use. */
  class ToastRegistry {
    var instance: Option<ToastManager>

    constructor()
      ensures instance.None?
    {
      instance := None;
    }

    method GetInstance() returns (m: ToastManager)
      modifies this
      ensures old(instance).Some? ==> m == old(instance).value
      ensures old(instance).None? ==> fresh(m) && m.Valid() && m.toasts == [] && m.listeners == []
      ensures instance == Some(m)
    {
      if instance.None? {
        var created := new ToastManager();
        instance := Some(created);
      }
      m := instance.value;
    }
  }

  /** Two calls to `getInstance` give the same manager. */
  method GetInstanceTwice(registry: ToastRegistry) returns (same: bool)
    modifies registry
    ensures same
  {
    var a := registry.GetInstance();
    var b := registry.GetInstance();
    same := a == b;
  }

  /** Showing a toast under a new id and removing it leaves the store as it was, after two notifications. */
  method ShowThenRemove(m: ToastManager, freshId: string, title: string)
    requires m.Valid() && IndexOf(m.toasts, freshId).None?
    modifies m
    ensures m.Valid() && m.toasts == old(m.toasts)
    ensures m.notified == old(m.notified) + [m.listeners, m.listeners]
  {
    var id := m.ShowInfo(freshId, title, None, None);
    m.Remove(id);
    DeleteUndoesNewSet(old(m.toasts), Toast(freshId, Info, title, None, None));
  }
}
